/** What every pass keeps, at every point where an API call may fail. */
module Safety {
  import opened Json
  import opened Ledger
  import opened Cluster
  import opened Reconcile

  /** A record under the name of a claim is that claim's record, and a record that carries
      the label of a claiming application is the record of one of its claims. */
  ghost predicate LedgerInv(ledger: map<RecKey, Record>, claims: set<Claim>) {
    && (forall c | c in claims && Rk(c) in ledger :: ledger[Rk(c)] == RecordOf(c))
    && (forall rk, c | rk in ledger && c in claims && ledger[rk].labelValue == Label(c.app) ::
          Owned(claims, rk, Claim(c.app, ledger[rk].spec)))
  }

  ghost predicate Owned(claims: set<Claim>, rk: RecKey, c: Claim) {
    c in claims && rk == Rk(c)
  }

  /** Objects remembered as created are live, claimed, and attributed to one application. */
  ghost predicate CreatedInv(w: World, claims: set<Claim>) {
    && (forall c | c in w.created :: c.key in w.target && c in claims)
    && (forall c, d | c in w.created && d in w.created && c.key == d.key :: c == d)
  }

  ghost predicate Inv(w: World, claims: set<Claim>) {
    LedgerInv(w.ledger, claims) && CreatedInv(w, claims)
  }

  /** Live objects the operator created for an application that has no record of them. */
  function Orphans(w: World): set<Claim> {
    set c | c in w.created && Rk(c) !in w.ledger
  }

  function CreatedBy(w: World, app: App): set<Claim> {
    set c | c in w.created && c.app == app
  }

  /** The listing of one application, as a pass uses it. */
  ghost predicate ListedFor(w: World, app: App, claims: set<Claim>, listing: seq<Listed>) {
    && (forall i | 0 <= i < |listing| :: Holds(w.ledger, Label(app), listing[i])
                                     && Owned(claims, listing[i].rk, Claim(app, listing[i].rec.spec)))
    && (forall i, j | 0 <= i < j < |listing| :: listing[i].rk != listing[j].rk)
  }

  lemma ListingIsFor(w: World, app: App, claims: set<Claim>, listing: seq<Listed>)
    requires LedgerInv(w.ledger, claims)
    requires exists c :: c in claims && c.app == app
    requires IsListing(w.ledger, Label(app), listing)
    ensures ListedFor(w, app, claims, listing)
  {
    var c :| c in claims && c.app == app;
    forall i | 0 <= i < |listing|
      ensures Owned(claims, listing[i].rk, Claim(app, listing[i].rec.spec))
    {
      assert Holds(w.ledger, Label(app), listing[i]);
    }
  }

  // ---------- recording ----------

  lemma UpdateRecordKeeps(env: Env, w: World, c: Claim, claims: set<Claim>)
    requires Separate(claims) && Inv(w, claims) && c in claims
    ensures var r := UpdateRecord(env, w, c);
            && Inv(r.w, claims)
            && StopsAtFault(env, w.clock, r.w.clock, r.reply == Done)
            && r.w.ledger == (if r.reply == Done then w.ledger[Rk(c) := RecordOf(c)] else w.ledger)
            && r.w.target == w.target && r.w.created == w.created
  {
    var r := UpdateRecord(env, w, c);
    if Rk(c) in w.ledger {
      assert w.ledger[Rk(c) := RecordOf(c)] == w.ledger;
    }
    var after := w.ledger[Rk(c) := RecordOf(c)];
    forall rk, d | rk in after && d in claims && after[rk].labelValue == Label(d.app)
      ensures Owned(claims, rk, Claim(d.app, after[rk].spec))
    {
      if rk == Rk(c) {
        assert d.app == c.app;
      }
    }
  }

  // ---------- one object, then the whole loop ----------

  function Claims(app: App, ms: seq<Manifest>): set<Claim> {
    set m | m in ms :: Claim(app, m.key)
  }

  function Keys(ms: seq<Manifest>): set<ObjKey> {
    set m | m in ms :: m.key
  }

  function Rks(app: App, ms: seq<Manifest>): set<RecKey> {
    set m | m in ms :: Rk(Claim(app, m.key))
  }

  function Names(app: App, ms: seq<Manifest>): set<string> {
    set m | m in ms :: RecordName(app, m.key)
  }

  lemma SetsOfConcat(app: App, a: seq<Manifest>, b: seq<Manifest>)
    ensures Claims(app, a + b) == Claims(app, a) + Claims(app, b)
    ensures Keys(a + b) == Keys(a) + Keys(b)
    ensures Rks(app, a + b) == Rks(app, a) + Rks(app, b)
    ensures Names(app, a + b) == Names(app, a) + Names(app, b)
  {
    assert forall m :: m in a + b <==> m in a || m in b;
  }

  /** How handling `ms` moves a pass forward: records and creations are only added, and only
      for these objects; objects that are not named stay as they are; nothing is orphaned. */
  ghost predicate Advances(app: App, ms: seq<Manifest>, p: Pass, q: Pass, ok: bool) {
    && p.w.ledger.Keys <= q.w.ledger.Keys <= p.w.ledger.Keys + Rks(app, ms)
    && (forall rk | rk in p.w.ledger :: q.w.ledger[rk] == p.w.ledger[rk])
    && p.updated <= q.updated <= p.updated + Names(app, ms)
    && p.w.created <= q.w.created <= p.w.created + Claims(app, ms)
    && (ok ==> Rks(app, ms) <= q.w.ledger.Keys && Names(app, ms) <= q.updated)
    && SameOff(Keys(ms), p.w.target, q.w.target)
    && Attributed(app, p.w, q.w)
    && Orphans(q.w) <= Orphans(p.w)
  }

  /** What is live in the end was live before, with its creator still remembered, or has been
      created for the application in between. */
  ghost predicate Attributed(app: App, w: World, v: World) {
    forall k | k in v.target :: Claim(app, k) in v.created || Kept(w, v, k)
  }

  ghost predicate Kept(w: World, v: World, k: ObjKey) {
    k in w.target && forall c | c in w.created && c.key == k :: c in v.created
  }

  /** Two object stores agree except, possibly, at the given keys. */
  ghost predicate SameOff(keys: set<ObjKey>, t: map<ObjKey, Json>, u: map<ObjKey, Json>) {
    forall k | k !in keys :: (k in t <==> k in u) && (k in t ==> t[k] == u[k])
  }

  /** The store after handling one object: as before, or with that object written, and
      attributed to the application if it was not there. */
  ghost predicate Stored(c: Claim, w: World, v: World) {
    || (v.target == w.target && v.created == w.created)
    || (&& v.target.Keys == w.target.Keys + {c.key} && SameOff({c.key}, w.target, v.target)
        && v.created == (if c.key in w.target then w.created else w.created + {c}))
  }

  lemma CompareShape(env: Env, w: World, status: Status, m: Manifest)
    ensures var cmp := Compare(env, w, status, m);
            && cmp.w == w.(clock := cmp.w.clock)
            && StopsAtFault(env, w.clock, cmp.w.clock, cmp.verdict != Broken)
            && (cmp.verdict != Broken ==> (cmp.verdict == Missing <==> m.key !in w.target))
  {
  }

  lemma ApplyShape(env: Env, w: World, c: Claim, body: Json)
    ensures var applied := Apply(env, w, c, body, c.key in w.target);
            && applied.w.ledger == w.ledger
            && Stored(c, w, applied.w)
            && StopsAtFault(env, w.clock, applied.w.clock, applied.reply == Done)
  {
  }

  lemma StopsThenStops(env: Env, a: nat, b: nat, c: nat, ok: bool)
    requires StopsAtFault(env, a, b, true) && StopsAtFault(env, b, c, ok)
    ensures StopsAtFault(env, a, c, ok)
  {
  }

  lemma ObjectStepShape(env: Env, job: Job, p: Pass, m: Manifest)
    requires var r := UpdateRecord(env, p.w, Claim(job.app, m.key));
             StopsAtFault(env, p.w.clock, r.w.clock, r.reply == Done)
    ensures var c := Claim(job.app, m.key);
            var r := UpdateRecord(env, p.w, c);
            var o := ObjectStep(env, job, p, m);
            && o.p.w.ledger == r.w.ledger
            && o.p.updated == (if r.reply == Done then p.updated + {RecordName(job.app, m.key)} else p.updated)
            && (o.ok ==> r.reply == Done)
            && Stored(c, r.w, o.p.w)
            && (r.reply != Done ==> o.p.w == r.w)
            && StopsAtFault(env, p.w.clock, o.p.w.clock, o.ok)
  {
    var c := Claim(job.app, m.key);
    var r := UpdateRecord(env, p.w, c);
    if r.reply == Done {
      var cmp := Compare(env, r.w, p.status, m);
      CompareShape(env, r.w, p.status, m);
      var body := if cmp.verdict == Missing || !cmp.verdict.Differs? then m.body else cmp.verdict.body;
      ApplyShape(env, cmp.w, c, body);
      if cmp.verdict != Broken {
        StopsThenStops(env, p.w.clock, r.w.clock, cmp.w.clock, true);
        StopsThenStops(env, p.w.clock, cmp.w.clock, Apply(env, cmp.w, c, body, c.key in cmp.w.target).w.clock,
                       Apply(env, cmp.w, c, body, c.key in cmp.w.target).reply == Done);
      } else {
        StopsThenStops(env, p.w.clock, r.w.clock, cmp.w.clock, false);
      }
    }
  }

  lemma StoredKeeps(c: Claim, w: World, v: World, claims: set<Claim>)
    requires CreatedInv(w, claims) && c in claims && Stored(c, w, v)
    ensures CreatedInv(v, claims)
    ensures w.created <= v.created <= w.created + {c}
    ensures SameOff({c.key}, w.target, v.target)
    ensures c.key in w.target || c.key !in v.target || c in v.created
  {
  }

  lemma ObjectStepKeeps(env: Env, job: Job, p: Pass, m: Manifest, claims: set<Claim>)
    requires Separate(claims) && Inv(p.w, claims) && Claim(job.app, m.key) in claims
    ensures var o := ObjectStep(env, job, p, m);
            && Inv(o.p.w, claims)
            && StopsAtFault(env, p.w.clock, o.p.w.clock, o.ok)
            && Advances(job.app, [m], p, o.p, o.ok)
  {
    var c := Claim(job.app, m.key);
    var r := UpdateRecord(env, p.w, c);
    var o := ObjectStep(env, job, p, m);
    UpdateRecordKeeps(env, p.w, c, claims);
    ObjectStepShape(env, job, p, m);
    StoredKeeps(c, r.w, o.p.w, claims);
    OneObjectAdvances(job.app, m, p, r.reply == Done, o.p, o.ok);
  }

  lemma OneObjectAdvances(app: App, m: Manifest, p: Pass, recorded: bool, q: Pass, ok: bool)
    requires var c := Claim(app, m.key);
             && (Rk(c) in p.w.ledger ==> p.w.ledger[Rk(c)] == RecordOf(c))
             && q.w.ledger == (if recorded then p.w.ledger[Rk(c) := RecordOf(c)] else p.w.ledger)
             && q.updated == (if recorded then p.updated + {RecordName(app, m.key)} else p.updated)
             && (ok ==> recorded)
             && p.w.created <= q.w.created <= p.w.created + {c}
             && (!recorded ==> q.w.created == p.w.created)
             && SameOff({c.key}, p.w.target, q.w.target)
             && (c.key in p.w.target || c.key !in q.w.target || c in q.w.created)
    ensures Advances(app, [m], p, q, ok)
  {
    var c := Claim(app, m.key);
    assert Rks(app, [m]) == {Rk(c)};
    assert Names(app, [m]) == {RecordName(app, m.key)};
    assert Claims(app, [m]) == {c};
    assert Keys([m]) == {m.key};
  }

  lemma AdvancesCompose(app: App, a: seq<Manifest>, b: seq<Manifest>, p: Pass, q: Pass, r: Pass, ok: bool)
    requires Advances(app, a, p, q, true) && Advances(app, b, q, r, ok)
    ensures Advances(app, a + b, p, r, ok)
  {
    SetsOfConcat(app, a, b);
  }

  lemma AdvancesStopped(app: App, a: seq<Manifest>, b: seq<Manifest>, p: Pass, q: Pass)
    requires Advances(app, a, p, q, false)
    ensures Advances(app, a + b, p, q, false)
  {
    SetsOfConcat(app, a, b);
  }

  lemma ItemStepKeeps(env: Env, job: Job, p: Pass, item: Item, claims: set<Claim>)
    requires Separate(claims) && Inv(p.w, claims) && Within(job.app, Objects([item]), claims)
    ensures var o := ItemStep(env, job, p, item);
            && Inv(o.p.w, claims)
            && StopsAtFault(env, p.w.clock, o.p.w.clock, o.ok)
            && Advances(job.app, Objects([item]), p, o.p, o.ok)
  {
    if item.Object? {
      assert item.m in Objects([item]);
      ObjectStepKeeps(env, job, p, item.m, claims);
    }
  }

  lemma {:induction false} RunItemsKeeps(env: Env, job: Job, p: Pass, items: seq<Item>, claims: set<Claim>)
    requires Separate(claims) && Inv(p.w, claims) && Within(job.app, Objects(items), claims)
    ensures var o := RunItems(env, job, p, items);
            && Inv(o.p.w, claims)
            && StopsAtFault(env, p.w.clock, o.p.w.clock, o.ok)
            && Advances(job.app, Objects(items), p, o.p, o.ok)
    decreases items
  {
    if items != [] {
      var ms, rest := Objects([items[0]]), Objects(items[1..]);
      assert items == [items[0]] + items[1..];
      ObjectsOfConcat([items[0]], items[1..]);
      ItemStepKeeps(env, job, p, items[0], claims);
      var o := ItemStep(env, job, p, items[0]);
      if o.ok {
        RunItemsKeeps(env, job, o.p, items[1..], claims);
        var last := RunItems(env, job, o.p, items[1..]);
        AdvancesCompose(job.app, ms, rest, p, o.p, last.p, last.ok);
        StopsThenStops(env, p.w.clock, o.p.w.clock, last.p.w.clock, last.ok);
      } else {
        AdvancesStopped(job.app, ms, rest, p, o.p);
      }
    }
  }

  // ---------- pruning ----------

  function Dropped(listing: seq<Listed>, keep: set<string>): set<RecKey> {
    set l | l in listing && l.rk.name !in keep :: l.rk
  }

  function DroppedKeys(listing: seq<Listed>, keep: set<string>): set<ObjKey> {
    set l | l in listing && l.rk.name !in keep :: l.rec.spec
  }

  /** From `w` to `v` nothing but these records and objects may have gone. */
  ghost predicate Shrinks(w: World, v: World, rks: set<RecKey>, keys: set<ObjKey>) {
    && w.ledger.Keys - rks <= v.ledger.Keys <= w.ledger.Keys
    && (forall rk | rk in v.ledger :: v.ledger[rk] == w.ledger[rk])
    && v.target.Keys <= w.target.Keys
    && SameOff(keys, w.target, v.target)
    && v.created <= w.created
    && (forall c | c in w.created && c !in v.created :: c.key in keys && c.key !in v.target)
  }

  /** At most one object has been orphaned, and then its record's removal was the last
      thing persisted. */
  ghost predicate OrphansAtMostOne(w: World, v: World) {
    || Orphans(v) <= Orphans(w)
    || exists c :: LastOrphaned(w, v, c)
  }

  ghost predicate LastOrphaned(w: World, v: World, c: Claim) {
    && Orphans(v) <= Orphans(w) + {c}
    && v.log != [] && v.log[|v.log| - 1] == RecordDeleted(Rk(c))
  }

  lemma ClearResourceShape(env: Env, w: World, l: Listed)
    requires l.rk in w.ledger
    ensures var r := ClearResource(env, w, l);
            && r.reply != NotFound
            && StopsAtFault(env, w.clock, r.w.clock, r.reply == Done)
            && (r.reply == Done ==>
                  && r.w.ledger == w.ledger - {l.rk} && r.w.target == w.target - {l.rec.spec}
                  && (l.rec.spec in w.target ==> r.w.created == set c | c in w.created && c.key != l.rec.spec)
                  && (l.rec.spec !in w.target ==> r.w.created == w.created))
            && (r.reply != Done ==>
                  && r.w.target == w.target && r.w.created == w.created
                  && (r.w.ledger == w.ledger
                      || (r.w.ledger == w.ledger - {l.rk} && r.w.log == w.log + [RecordDeleted(l.rk)])))
  {
    assert l.rec.spec !in w.target ==> w.target - {l.rec.spec} == w.target;
  }

  lemma ClearResourceKeeps(env: Env, w: World, app: App, l: Listed, claims: set<Claim>)
    requires Separate(claims) && Inv(w, claims)
    requires Holds(w.ledger, Label(app), l) && Owned(claims, l.rk, Claim(app, l.rec.spec))
    ensures var r := ClearResource(env, w, l);
            && Inv(r.w, claims)
            && Shrinks(w, r.w, {l.rk}, {l.rec.spec})
            && (r.reply == Done ==> l.rk !in r.w.ledger && l.rec.spec !in r.w.target && Orphans(r.w) <= Orphans(w))
            && (r.reply != Done ==> OrphansAtMostOne(w, r.w))
  {
    var r := ClearResource(env, w, l);
    var c := Claim(app, l.rec.spec);
    ClearResourceShape(env, w, l);
    if r.reply != Done && r.w.ledger != w.ledger {
      assert Orphans(r.w) <= Orphans(w) + {c};
      assert LastOrphaned(w, r.w, c);
    }
  }

  /** Exactly when clearing orphans an object: its record goes and a call after that fails. */
  lemma ClearResourceOrphansIff(env: Env, w: World, app: App, l: Listed, claims: set<Claim>)
    requires Inv(w, claims) && Holds(w.ledger, Label(app), l)
    requires l.rk == Rk(Claim(app, l.rec.spec)) && Claim(app, l.rec.spec) in w.created
    ensures Claim(app, l.rec.spec) in Orphans(ClearResource(env, w, l).w)
       <==> !env.fails(w.clock) && (env.fails(w.clock + 1) || env.fails(w.clock + 2))
  {
    var dropped := DeleteRecord(env, w, l.rk);
    if dropped.reply == Done {
      assert l.rec.spec in dropped.w.target;
      assert GetObject(env, dropped.w, l.rec.spec).reply == if env.fails(w.clock + 1) then Failed else Done;
    }
  }

  lemma ListedForRest(w: World, v: World, app: App, claims: set<Claim>, listing: seq<Listed>)
    requires listing != [] && ListedFor(w, app, claims, listing)
    requires forall rk | rk in w.ledger && rk != listing[0].rk :: rk in v.ledger && v.ledger[rk] == w.ledger[rk]
    ensures ListedFor(v, app, claims, listing[1..])
  {
    forall i | 0 <= i < |listing| - 1
      ensures Holds(v.ledger, Label(app), listing[1..][i])
      ensures Owned(claims, listing[1..][i].rk, Claim(app, listing[1..][i].rec.spec))
    {
      assert listing[1..][i] == listing[i + 1];
      assert Holds(w.ledger, Label(app), listing[i + 1]);
      assert listing[0].rk != listing[i + 1].rk;
    }
  }

  lemma DroppedCons(listing: seq<Listed>, keep: set<string>)
    requires listing != []
    ensures var head := if listing[0].rk.name in keep then {} else {listing[0].rk};
            Dropped(listing, keep) == head + Dropped(listing[1..], keep)
    ensures var head := if listing[0].rk.name in keep then {} else {listing[0].rec.spec};
            DroppedKeys(listing, keep) == head + DroppedKeys(listing[1..], keep)
  {
    assert forall l :: l in listing <==> l == listing[0] || l in listing[1..];
  }

  lemma ShrinksThen(w: World, v: World, u: World, rk: RecKey, key: ObjKey, rks: set<RecKey>, keys: set<ObjKey>)
    requires Shrinks(w, v, {rk}, {key}) && Shrinks(v, u, rks, keys)
    ensures Shrinks(w, u, {rk} + rks, {key} + keys)
    ensures rk !in v.ledger ==> rk !in u.ledger
    ensures key !in v.target ==> key !in u.target
  {
  }

  lemma OrphansThen(w: World, v: World, u: World)
    requires Orphans(v) <= Orphans(w)
    ensures Orphans(u) <= Orphans(v) ==> Orphans(u) <= Orphans(w)
    ensures OrphansAtMostOne(v, u) ==> OrphansAtMostOne(w, u)
  {
    if c :| LastOrphaned(v, u, c) {
      assert LastOrphaned(w, u, c);
    }
  }

  /** What pruning does: on success all that is stale is gone; otherwise at most one object has
      been orphaned. */
  ghost predicate Prunes(w: World, v: World, rks: set<RecKey>, keys: set<ObjKey>, ok: bool) {
    && Shrinks(w, v, rks, keys)
    && (ok ==> v.ledger.Keys !! rks && v.target.Keys !! keys && Orphans(v) <= Orphans(w))
    && (!ok ==> OrphansAtMostOne(w, v))
  }

  lemma PrunesThen(w: World, v: World, u: World, rk: RecKey, key: ObjKey, rks: set<RecKey>, keys: set<ObjKey>, ok: bool)
    requires Prunes(w, v, {rk}, {key}, true) && Prunes(v, u, rks, keys, ok)
    ensures Prunes(w, u, {rk} + rks, {key} + keys, ok)
  {
    ShrinksThen(w, v, u, rk, key, rks, keys);
    OrphansThen(w, v, u);
  }

  lemma PrunesStopped(w: World, v: World, rk: RecKey, key: ObjKey, rks: set<RecKey>, keys: set<ObjKey>)
    requires Prunes(w, v, {rk}, {key}, false)
    ensures Prunes(w, v, {rk} + rks, {key} + keys, false)
  {
  }

  lemma ClearFirst(env: Env, w: World, app: App, listing: seq<Listed>, claims: set<Claim>)
    requires Separate(claims) && Inv(w, claims) && ListedFor(w, app, claims, listing) && listing != []
    ensures var c := ClearResource(env, w, listing[0]);
            && Inv(c.w, claims)
            && StopsAtFault(env, w.clock, c.w.clock, c.reply == Done)
            && Prunes(w, c.w, {listing[0].rk}, {listing[0].rec.spec}, c.reply == Done)
            && (c.reply == Done ==> ListedFor(c.w, app, claims, listing[1..]))
  {
    assert Holds(w.ledger, Label(app), listing[0]);
    var c := ClearResource(env, w, listing[0]);
    ClearResourceShape(env, w, listing[0]);
    ClearResourceKeeps(env, w, app, listing[0], claims);
    if c.reply == Done {
      ListedForRest(w, c.w, app, claims, listing);
    }
  }

  lemma {:induction false} PruneKeeps(env: Env, w: World, app: App, listing: seq<Listed>, keep: set<string>,
                                      claims: set<Claim>)
    requires Separate(claims) && Inv(w, claims) && ListedFor(w, app, claims, listing)
    ensures var r := Prune(env, w, listing, keep);
            && Inv(r.w, claims)
            && StopsAtFault(env, w.clock, r.w.clock, r.reply == Done)
            && Prunes(w, r.w, Dropped(listing, keep), DroppedKeys(listing, keep), r.reply == Done)
    decreases listing
  {
    if listing != [] {
      var first, rest := listing[0], listing[1..];
      DroppedCons(listing, keep);
      if first.rk.name in keep {
        ListedForRest(w, w, app, claims, listing);
        PruneKeeps(env, w, app, rest, keep, claims);
      } else {
        ClearFirst(env, w, app, listing, claims);
        var c := ClearResource(env, w, first);
        if c.reply == Done {
          PruneKeeps(env, c.w, app, rest, keep, claims);
          var r := Prune(env, c.w, rest, keep);
          StopsThenStops(env, w.clock, c.w.clock, r.w.clock, r.reply == Done);
          PrunesThen(w, c.w, r.w, first.rk, first.rec.spec, Dropped(rest, keep), DroppedKeys(rest, keep),
                     r.reply == Done);
        } else {
          PrunesStopped(w, c.w, first.rk, first.rec.spec, Dropped(rest, keep), DroppedKeys(rest, keep));
        }
      }
    }
  }

  // ---------- the whole pass ----------

  ghost predicate Claimant(app: App, claims: set<Claim>) {
    exists c :: c in claims && c.app == app
  }

  function KeysOf(app: App, claims: set<Claim>): set<ObjKey> {
    set c | c in claims && c.app == app :: c.key
  }

  /** Over distinct records, an object has one among those of some manifests exactly when one of
      the manifests names it. */
  lemma RecordedIffNamed(app: App, ms: seq<Manifest>, claims: set<Claim>, c: Claim)
    requires Separate(claims) && Within(app, ms, claims) && c in claims && c.app == app
    ensures Rk(c) in Rks(app, ms) <==> c.key in Keys(ms)
  {
    if m :| m in ms && m.key == c.key {
      assert Rk(Claim(app, m.key)) == Rk(c);
    }
  }

  /** Records under other labels are untouched. */
  ghost predicate ForeignSame(app: App, l: map<RecKey, Record>, m: map<RecKey, Record>) {
    && (forall rk | rk in l && l[rk].labelValue != Label(app) :: rk in m && m[rk] == l[rk])
    && (forall rk | rk in m && m[rk].labelValue != Label(app) :: rk in l && l[rk] == m[rk])
  }

  /** The application's records are those of exactly these objects. */
  ghost predicate ExactLedger(app: App, ms: seq<Manifest>, ledger: map<RecKey, Record>) {
    forall rk :: rk in Rks(app, ms) <==> rk in ledger && ledger[rk].labelValue == Label(app)
  }

  /** What every pass for `app` keeps, successful or not. */
  ghost predicate PassKeeps(env: Env, app: App, claims: set<Claim>, w: World, v: World, ok: bool) {
    && Inv(v, claims)
    && StopsAtFault(env, w.clock, v.clock, ok)
    && ForeignSame(app, w.ledger, v.ledger)
    && SameOff(KeysOf(app, claims), w.target, v.target)
    && (forall c | c in v.created :: c in w.created || c.app == app)
    && Attributed(app, w, v)
    && (if ok then Orphans(v) <= Orphans(w) else OrphansAtMostOne(w, v))
  }

  lemma ListedForLater(w: World, v: World, app: App, claims: set<Claim>, listing: seq<Listed>)
    requires ListedFor(w, app, claims, listing)
    requires forall rk | rk in w.ledger :: rk in v.ledger && v.ledger[rk] == w.ledger[rk]
    ensures ListedFor(v, app, claims, listing)
  {
    forall i | 0 <= i < |listing|
      ensures Holds(v.ledger, Label(app), listing[i])
    {
      assert Holds(w.ledger, Label(app), listing[i]);
    }
  }

  lemma AdvancesIsPass(env: Env, app: App, ms: seq<Manifest>, claims: set<Claim>, p: Pass, q: Pass, ok: bool)
    requires Within(app, ms, claims) && Inv(p.w, claims) && Inv(q.w, claims)
    requires StopsAtFault(env, p.w.clock, q.w.clock, ok)
    requires Advances(app, ms, p, q, ok)
    ensures PassKeeps(env, app, claims, p.w, q.w, ok)
  {
    forall rk | rk in Rks(app, ms) && rk in q.w.ledger
      ensures q.w.ledger[rk].labelValue == Label(app)
    {
      var m :| m in ms && rk == Rk(Claim(app, m.key));
      assert Claim(app, m.key) in claims;
    }
    assert Keys(ms) <= KeysOf(app, claims);
  }

  lemma DroppedAreOwn(w: World, app: App, claims: set<Claim>, listing: seq<Listed>, keep: set<string>)
    requires ListedFor(w, app, claims, listing)
    ensures DroppedKeys(listing, keep) <= KeysOf(app, claims)
    ensures forall rk | rk in Dropped(listing, keep) :: rk in w.ledger && w.ledger[rk].labelValue == Label(app)
  {
    forall l | l in listing
      ensures Holds(w.ledger, Label(app), l) && Owned(claims, l.rk, Claim(app, l.rec.spec))
    {
      var i :| 0 <= i < |listing| && listing[i] == l;
    }
  }

  lemma PruneIsPass(env: Env, w: World, app: App, listing: seq<Listed>, keep: set<string>, claims: set<Claim>)
    requires Separate(claims) && Inv(w, claims) && ListedFor(w, app, claims, listing)
    ensures var r := Prune(env, w, listing, keep);
            PassKeeps(env, app, claims, w, r.w, r.reply == Done)
  {
    PruneKeeps(env, w, app, listing, keep, claims);
    DroppedAreOwn(w, app, claims, listing, keep);
  }

  lemma PassThenPass(env: Env, app: App, claims: set<Claim>, w: World, v: World, u: World, ok: bool)
    requires PassKeeps(env, app, claims, w, v, true) && PassKeeps(env, app, claims, v, u, ok)
    ensures PassKeeps(env, app, claims, w, u, ok)
  {
    OrphansThen(w, v, u);
  }

  lemma FetchIsPass(env: Env, app: App, claims: set<Claim>, w: World)
    requires Inv(w, claims)
    ensures var c := Fetch(env, w);
            PassKeeps(env, app, claims, w, c.w, c.reply == Done)
  {
  }

  lemma SetTargetIsPass(env: Env, job: Job, claims: set<Claim>, w: World)
    requires Inv(w, claims)
    ensures var c := SetTarget(env, job, w);
            PassKeeps(env, job.app, claims, w, c.w, c.reply == Done)
  {
  }

  lemma PrepareShape(env: Env, job: Job, w: World, claims: set<Claim>)
    requires Inv(w, claims)
    ensures var c := Prepare(env, job, w);
            c.w == w.(clock := c.w.clock) && PassKeeps(env, job.app, claims, w, c.w, c.reply == Done)
  {
    var c0 := SetTarget(env, job, w);
    SetTargetIsPass(env, job, claims, w);
    if c0.reply == Done {
      var c1 := Fetch(env, c0.w);
      FetchIsPass(env, job.app, claims, c0.w);
      PassThenPass(env, job.app, claims, w, c0.w, c1.w, c1.reply == Done);
      if c1.reply == Done {
        var c2 := Fetch(env, c1.w);
        FetchIsPass(env, job.app, claims, c1.w);
        PassThenPass(env, job.app, claims, w, c1.w, c2.w, c2.reply == Done);
      }
    }
  }

  /** Pruning the listing taken before the loop leaves exactly the records of the objects
      the loop went through. */
  lemma PruneLeavesExact(env: Env, app: App, ms: seq<Manifest>, claims: set<Claim>, p: Pass, q: Pass,
                         listing: seq<Listed>)
    requires Separate(claims) && Within(app, ms, claims) && Inv(p.w, claims) && Inv(q.w, claims)
    requires Advances(app, ms, p, q, true) && p.updated == {}
    requires Claimant(app, claims) && IsListing(p.w.ledger, Label(app), listing)
    ensures ListedFor(q.w, app, claims, listing)
    ensures var r := Prune(env, q.w, listing, q.updated);
            r.reply == Done ==> ExactLedger(app, ms, r.w.ledger)
    ensures DroppedKeys(listing, q.updated) !! Keys(ms)
  {
    ListingIsFor(p.w, app, claims, listing);
    ListedForLater(p.w, q.w, app, claims, listing);
    PruneKeeps(env, q.w, app, listing, q.updated, claims);
    DroppedAreOwn(q.w, app, claims, listing, q.updated);
    assert q.updated == Names(app, ms);
    var r := Prune(env, q.w, listing, q.updated);
    forall l | l in listing
      ensures Owned(claims, l.rk, Claim(app, l.rec.spec))
    {
      var i :| 0 <= i < |listing| && listing[i] == l;
    }
    forall l | l in listing && l.rk.name in Names(app, ms)
      ensures l.rk in Rks(app, ms)
    {
      var m :| m in ms && l.rk.name == RecordName(app, m.key);
      assert l.rk == Rk(Claim(app, m.key));
    }
    forall rk | rk in Rks(app, ms)
      ensures rk !in Dropped(listing, q.updated) && rk in q.w.ledger && q.w.ledger[rk].labelValue == Label(app)
    {
      var m :| m in ms && rk == Rk(Claim(app, m.key));
      assert Claim(app, m.key) in claims;
    }
    forall l | l in listing && l.rec.spec in Keys(ms)
      ensures l.rk.name in q.updated
    {
      var m :| m in ms && m.key == l.rec.spec;
      assert l.rk == Rk(Claim(app, m.key));
    }
    if r.reply == Done {
      forall rk | rk in r.w.ledger && r.w.ledger[rk].labelValue == Label(app)
        ensures rk in Rks(app, ms)
      {
        if rk in p.w.ledger {
          assert Listed(rk, p.w.ledger[rk]) in listing;
        }
      }
    }
  }

  /** A pass of the plain YAML manager, from any world that meets the invariant, with calls
      failing anywhere: it keeps the invariant, stops exactly at the first failing call,
      touches nothing that belongs to others, orphans at most one object and none if it
      succeeds; and if it succeeds its records are exactly those of the manifests. */
  lemma SyncKeeps(env: Env, job: Job, w: World, status: Status, files: seq<seq<Manifest>>,
                  listing: seq<Listed>, claims: set<Claim>)
    requires Separate(claims) && Inv(w, claims) && Claimant(job.app, claims)
    requires Within(job.app, Manifests(files), claims)
    requires IsListing(w.ledger, Label(job.app), listing)
    ensures var o := Sync(env, job, w, status, files, listing);
            && PassKeeps(env, job.app, claims, w, o.p.w, o.ok)
            && (o.ok ==> ExactLedger(job.app, Manifests(files), o.p.w.ledger))
  {
    var c := Prepare(env, job, w);
    PrepareShape(env, job, w, claims);
    if c.reply == Done {
      SyncBodyKeeps(env, job, Pass(c.w, status, {}), files, listing, claims);
      var o := Sync(env, job, w, status, files, listing);
      PassThenPass(env, job.app, claims, w, c.w, o.p.w, o.ok);
    }
  }

  lemma SyncBodyKeeps(env: Env, job: Job, p: Pass, files: seq<seq<Manifest>>, listing: seq<Listed>, claims: set<Claim>)
    requires Separate(claims) && Inv(p.w, claims) && Claimant(job.app, claims)
    requires Within(job.app, Manifests(files), claims) && p.updated == {}
    requires IsListing(p.w.ledger, Label(job.app), listing)
    ensures var o := RunItems(env, job, p, Items(files));
            var r := Prune(env, o.p.w, listing, o.p.updated);
            && PassKeeps(env, job.app, claims, p.w, o.p.w, o.ok)
            && (o.ok ==> PassKeeps(env, job.app, claims, p.w, r.w, r.reply == Done))
            && (o.ok && r.reply == Done ==> ExactLedger(job.app, Manifests(files), r.w.ledger))
  {
    var app, ms := job.app, Manifests(files);
    ObjectsOfItems(files);
    RunItemsKeeps(env, job, p, Items(files), claims);
    var o := RunItems(env, job, p, Items(files));
    AdvancesIsPass(env, app, ms, claims, p, o.p, o.ok);
    if o.ok {
      PruneLeavesExact(env, app, ms, claims, p, o.p, listing);
      PruneIsPass(env, o.p.w, app, listing, o.p.updated, claims);
      var r := Prune(env, o.p.w, listing, o.p.updated);
      PassThenPass(env, app, claims, p.w, o.p.w, r.w, r.reply == Done);
    }
  }

  /** `Clear` keeps the same things; if it succeeds the application has no record left and
      nothing it had recorded is live. */
  lemma ClearKeeps(env: Env, job: Job, w: World, listing: seq<Listed>, claims: set<Claim>)
    requires Separate(claims) && Inv(w, claims) && Claimant(job.app, claims)
    requires IsListing(w.ledger, Label(job.app), listing)
    ensures var r := Clear(env, job, w, listing);
            && PassKeeps(env, job.app, claims, w, r.w, r.reply == Done)
            && (r.reply == Done ==>
                  && ExactLedger(job.app, [], r.w.ledger)
                  && forall rk | rk in w.ledger && w.ledger[rk].labelValue == Label(job.app) ::
                       w.ledger[rk].spec !in r.w.target)
  {
    var app := job.app;
    var c0 := SetTarget(env, job, w);
    SetTargetIsPass(env, job, claims, w);
    if c0.reply == Done {
      var c1 := Fetch(env, c0.w);
      FetchIsPass(env, app, claims, c0.w);
      PassThenPass(env, app, claims, w, c0.w, c1.w, c1.reply == Done);
      if c1.reply == Done {
        var r := Prune(env, c1.w, listing, {});
        ListingIsFor(c1.w, app, claims, listing);
        PruneIsPass(env, c1.w, app, listing, {}, claims);
        PassThenPass(env, app, claims, w, c1.w, r.w, r.reply == Done);
        PruneKeeps(env, c1.w, app, listing, {}, claims);
        forall rk | rk in w.ledger && w.ledger[rk].labelValue == Label(app)
          ensures rk in Dropped(listing, {}) && w.ledger[rk].spec in DroppedKeys(listing, {})
        {
          assert Listed(rk, w.ledger[rk]) in listing;
        }
      }
    }
  }
}
