/** Whole runs: any sequence of passes by any of the applications, one after another. */
module Runs {
  import opened Collections
  import opened Json
  import opened Ledger
  import opened Cluster
  import opened Reconcile
  import opened Safety
  import H = Helm

  datatype Step =
    | SyncStep(job: Job, files: seq<seq<Manifest>>, listing: seq<Listed>)
    | ClearStep(job: Job, listing: seq<Listed>)
    | HelmSyncStep(job: Job, clone: H.Clone, docs: seq<H.Document>, listing: seq<Listed>)
    | HelmClearStep(job: Job, listing: seq<Listed>)

  predicate IsSync(s: Step) {
    s.SyncStep? || s.HelmSyncStep?
  }

  predicate ByHelm(s: Step) {
    s.HelmSyncStep? || s.HelmClearStep?
  }

  datatype Ran = Ran(w: World, ok: bool)

  /** A Helm pass that panics has not succeeded; the operator is restarted and goes on. */
  function Do(env: Env, w: World, s: Step): Ran {
    match s
    case SyncStep(job, files, listing) =>
      var o := CheckSync(env, job, w, files, listing);
      Ran(o.p.w, o.ok)
    case ClearStep(job, listing) =>
      var r := Clear(env, job, w, listing);
      Ran(r.w, r.reply == Done)
    case HelmSyncStep(job, clone, docs, listing) =>
      var o := H.HelmSync(env, job, w, Unknown, clone, docs, listing);
      Ran(o.w, o.end == H.Ok)
    case HelmClearStep(job, listing) =>
      var r := H.HelmClear(env, w, listing);
      Ran(r.w, r.reply == Done)
  }

  /** The objects a sync is asked to deploy. */
  function Named(s: Step): seq<Manifest>
    requires IsSync(s)
  {
    if s.SyncStep? then Manifests(s.files) else H.Rendered(s.docs)
  }

  /** A step is taken by the manager of its application's source, names only claimed objects, and
      uses a listing the cluster may return. */
  ghost predicate Valid(env: Env, w: World, claims: set<Claim>, s: Step) {
    && Claimant(s.job.app, claims)
    && (ByHelm(s) <==> env.charts(s.job.app))
    && IsListing(w.ledger, Label(s.job.app), s.listing)
    && (IsSync(s) ==> Within(s.job.app, Named(s), claims))
  }

  function Final(env: Env, w: World, steps: seq<Step>): World
    decreases steps
  {
    if steps == [] then w else Final(env, Do(env, w, steps[0]).w, steps[1..])
  }

  ghost predicate ValidRun(env: Env, w: World, claims: set<Claim>, steps: seq<Step>)
    decreases steps
  {
    steps != [] ==> Valid(env, w, claims, steps[0]) && ValidRun(env, Do(env, w, steps[0]).w, claims, steps[1..])
  }

  /** The invariant of runs: objects that plain YAML passes created are no Helm application's. */
  ghost predicate RunInv(env: Env, w: World, claims: set<Claim>) {
    Inv(w, claims) && forall c | c in w.created :: !env.charts(c.app)
  }

  lemma PlainKeeps(env: Env, w: World, s: Step, claims: set<Claim>)
    requires Separate(claims) && Inv(w, claims) && Valid(env, w, claims, s) && !ByHelm(s)
    ensures PassKeeps(env, s.job.app, claims, w, Do(env, w, s).w, Do(env, w, s).ok)
  {
    if s.SyncStep? {
      SyncKeeps(env, s.job, w, Unknown, s.files, s.listing, claims);
    } else {
      ClearKeeps(env, s.job, w, s.listing, claims);
    }
  }

  lemma HelmKeeps(env: Env, w: World, s: Step, claims: set<Claim>)
    requires Separate(claims) && RunInv(env, w, claims) && Valid(env, w, claims, s) && ByHelm(s)
    ensures PassKeeps(env, s.job.app, claims, w, Do(env, w, s).w, Do(env, w, s).ok)
    ensures Do(env, w, s).w.created <= w.created
  {
    if s.HelmSyncStep? {
      H.SyncKeeps(env, s.job, w, Unknown, s.clone, s.docs, s.listing, claims);
    } else {
      H.ClearClears(env, w, s.job.app, s.listing, claims);
      H.ClearIsPass(env, w, s.job.app, s.listing, claims);
    }
  }

  lemma DoKeeps(env: Env, w: World, s: Step, claims: set<Claim>)
    requires Separate(claims) && RunInv(env, w, claims) && Valid(env, w, claims, s)
    ensures var r := Do(env, w, s);
            && PassKeeps(env, s.job.app, claims, w, r.w, r.ok)
            && RunInv(env, r.w, claims)
  {
    if ByHelm(s) {
      HelmKeeps(env, w, s, claims);
    } else {
      PlainKeeps(env, w, s, claims);
    }
  }

  /** After any sync that succeeds, by either manager, the records are exactly those of the
      objects it was asked to deploy. */
  lemma SyncsExactly(env: Env, w: World, s: Step, claims: set<Claim>)
    requires Separate(claims) && RunInv(env, w, claims) && Valid(env, w, claims, s) && IsSync(s)
    ensures Do(env, w, s).ok ==> ExactLedger(s.job.app, Named(s), Do(env, w, s).w.ledger)
  {
    match s
    case SyncStep(job, files, listing) => SyncKeeps(env, job, w, Unknown, files, listing, claims);
    case HelmSyncStep(job, clone, docs, listing) =>
      H.SyncKeeps(env, job, w, Unknown, clone, docs, listing, claims);
  }

  // ---------- counting orphans against faults ----------

  lemma {:induction false} FaultsSplit(env: Env, a: nat, b: nat, c: nat)
    requires a <= b <= c
    ensures Faults(env, a, c) == Faults(env, a, b) + Faults(env, b, c)
    decreases c
  {
    if b < c {
      FaultsSplit(env, a, b, c - 1);
    }
  }

  lemma {:induction false} QuietHasNoFaults(env: Env, lo: nat, hi: nat)
    requires lo <= hi
    ensures Quiet(env, lo, hi) <==> Faults(env, lo, hi) == 0
    decreases hi
  {
    if lo < hi {
      QuietHasNoFaults(env, lo, hi - 1);
    }
  }

  /** An operation meets one failing call if it reports an error, and none otherwise. */
  lemma FaultsOfPass(env: Env, lo: nat, hi: nat, ok: bool)
    requires StopsAtFault(env, lo, hi, ok)
    ensures Faults(env, lo, hi) == if ok then 0 else 1
  {
    QuietHasNoFaults(env, lo, if ok then hi else hi - 1);
  }

  lemma OrphansGrowByOne(w: World, v: World)
    requires OrphansAtMostOne(w, v)
    ensures |Orphans(v)| <= |Orphans(w)| + 1
  {
    if c :| LastOrphaned(w, v, c) {
      SubsetSize(Orphans(v), Orphans(w) + {c});
    } else {
      SubsetSize(Orphans(v), Orphans(w));
    }
  }

  lemma DoCounts(env: Env, w: World, s: Step, claims: set<Claim>)
    requires Separate(claims) && RunInv(env, w, claims) && Valid(env, w, claims, s)
    ensures var r := Do(env, w, s);
            && w.clock <= r.w.clock
            && |Orphans(r.w)| <= |Orphans(w)| + Faults(env, w.clock, r.w.clock)
  {
    var r := Do(env, w, s);
    DoKeeps(env, w, s, claims);
    FaultsOfPass(env, w.clock, r.w.clock, r.ok);
    if r.ok {
      SubsetSize(Orphans(r.w), Orphans(w));
    } else {
      OrphansGrowByOne(w, r.w);
    }
  }

  /** Over every run, with calls failing at arbitrary points, the live objects that their
      creator no longer has on record never outnumber the calls that failed. */
  lemma {:induction false} OrphansBoundedByFaults(env: Env, w: World, steps: seq<Step>, claims: set<Claim>)
    requires Separate(claims) && RunInv(env, w, claims) && ValidRun(env, w, claims, steps)
    ensures var v := Final(env, w, steps);
            && RunInv(env, v, claims)
            && w.clock <= v.clock
            && |Orphans(v)| <= |Orphans(w)| + Faults(env, w.clock, v.clock)
    decreases steps
  {
    if steps != [] {
      var r := Do(env, w, steps[0]);
      DoKeeps(env, w, steps[0], claims);
      DoCounts(env, w, steps[0], claims);
      OrphansBoundedByFaults(env, r.w, steps[1..], claims);
      FaultsSplit(env, w.clock, r.w.clock, Final(env, w, steps).clock);
    }
  }

  // ---------- when an orphan arises, and when it is taken back ----------

  /** The bound is not idle: `Clear` works from the records alone, so no `Clear`, whatever its
      outcome, ever removes an orphan of its application. */
  lemma ClearLeavesOrphans(env: Env, job: Job, w: World, listing: seq<Listed>, claims: set<Claim>, c: Claim)
    requires Separate(claims) && Inv(w, claims) && c in Orphans(w) && c.app == job.app
    requires IsListing(w.ledger, Label(job.app), listing)
    ensures c in Orphans(Clear(env, job, w, listing).w)
  {
    var c0 := SetTarget(env, job, w);
    if c0.reply == Done {
      var c1 := Fetch(env, c0.w);
      if c1.reply == Done {
        ListingIsFor(c1.w, job.app, claims, listing);
        PruneKeeps(env, c1.w, job.app, listing, {}, claims);
        OrphanNotListed(w, job.app, listing, {}, claims, c);
      }
    }
  }

  lemma OrphanNotListed(w: World, app: App, listing: seq<Listed>, keep: set<string>, claims: set<Claim>, c: Claim)
    requires c in Orphans(w) && c.app == app
    requires ListedFor(w, app, claims, listing)
    ensures c.key !in DroppedKeys(listing, keep)
  {
    forall l | l in listing
      ensures l.rec.spec != c.key
    {
      var i :| 0 <= i < |listing| && listing[i] == l;
      assert Holds(w.ledger, Label(app), l) && Owned(claims, l.rk, Claim(app, l.rec.spec));
    }
  }

  /** A pass, whatever its outcome, does not delete an orphan of its application. */
  lemma SyncLeavesOrphanLive(env: Env, job: Job, w: World, files: seq<seq<Manifest>>, listing: seq<Listed>,
                             claims: set<Claim>, c: Claim)
    requires Separate(claims) && Inv(w, claims) && c in Orphans(w) && c.app == job.app
    requires Within(job.app, Manifests(files), claims) && IsListing(w.ledger, Label(job.app), listing)
    ensures c in CheckSync(env, job, w, files, listing).p.w.created
  {
    var prepared := Prepare(env, job, w);
    PrepareShape(env, job, w, claims);
    if prepared.reply == Done {
      var p := Pass(prepared.w, Unknown, {});
      ObjectsOfItems(files);
      RunItemsKeeps(env, job, p, Items(files), claims);
      var o := RunItems(env, job, p, Items(files));
      if o.ok {
        ListingIsFor(w, job.app, claims, listing);
        OrphanNotListed(w, job.app, listing, o.p.updated, claims, c);
        PruneLeavesExact(env, job.app, Manifests(files), claims, p, o.p, listing);
        PruneKeeps(env, o.p.w, job.app, listing, o.p.updated, claims);
      }
    }
  }

  /** Exactly when an orphan is taken back: a later pass of its application that succeeds has it
      on record again if a manifest names it, and otherwise leaves it an orphan. */
  lemma OrphanReturnsIff(env: Env, job: Job, w: World, files: seq<seq<Manifest>>, listing: seq<Listed>,
                         claims: set<Claim>, c: Claim)
    requires Separate(claims) && Inv(w, claims) && c in Orphans(w) && c.app == job.app
    requires Within(job.app, Manifests(files), claims) && IsListing(w.ledger, Label(job.app), listing)
    requires CheckSync(env, job, w, files, listing).ok
    ensures c in Orphans(CheckSync(env, job, w, files, listing).p.w) <==> c.key !in Keys(Manifests(files))
  {
    var v := CheckSync(env, job, w, files, listing).p.w;
    SyncLeavesOrphanLive(env, job, w, files, listing, claims, c);
    SyncKeeps(env, job, w, Unknown, files, listing, claims);
    RecordedIffNamed(job.app, Manifests(files), claims, c);
    assert Rk(c) in v.ledger ==> v.ledger[Rk(c)] == RecordOf(c);
  }

  // ---------- runs without faults ----------

  function AllKeys(claims: set<Claim>): set<ObjKey> {
    set c | c in claims :: c.key
  }

  lemma {:induction false} ClockOnlyAdvances(env: Env, w: World, steps: seq<Step>, claims: set<Claim>)
    requires Separate(claims) && RunInv(env, w, claims) && ValidRun(env, w, claims, steps)
    ensures w.clock <= Final(env, w, steps).clock
    decreases steps
  {
    if steps != [] {
      DoKeeps(env, w, steps[0], claims);
      ClockOnlyAdvances(env, Do(env, w, steps[0]).w, steps[1..], claims);
    }
  }

  lemma FinalOfLast(env: Env, w: World, steps: seq<Step>, last: Step, claims: set<Claim>)
    requires ValidRun(env, w, claims, steps + [last])
    ensures ValidRun(env, w, claims, steps)
    ensures Valid(env, Final(env, w, steps), claims, last)
    ensures Final(env, w, steps + [last]) == Do(env, Final(env, w, steps), last).w
    decreases steps
  {
    if steps == [] {
      assert steps + [last] == [last];
      assert ValidRun(env, w, claims, [last]);
      assert [last][1..] == [];
    } else {
      assert (steps + [last])[1..] == steps[1..] + [last];
      FinalOfLast(env, Do(env, w, steps[0]).w, steps[1..], last, claims);
    }
  }

  lemma {:induction false} QuietRun(env: Env, w: World, steps: seq<Step>, claims: set<Claim>)
    requires Separate(claims) && RunInv(env, w, claims) && ValidRun(env, w, claims, steps)
    requires Quiet(env, w.clock, Final(env, w, steps).clock)
    ensures var v := Final(env, w, steps);
            && RunInv(env, v, claims)
            && Orphans(v) <= Orphans(w)
            && SameOff(AllKeys(claims), w.target, v.target)
    decreases steps
  {
    if steps != [] {
      var r := Do(env, w, steps[0]);
      DoKeeps(env, w, steps[0], claims);
      ClockOnlyAdvances(env, r.w, steps[1..], claims);
      assert r.ok;
      assert KeysOf(steps[0].job.app, claims) <= AllKeys(claims);
      QuietRun(env, r.w, steps[1..], claims);
    }
  }

  /** Teardown: after any fault-free run with changing manifests, a final fault-free `Clear` by
      its application's manager succeeds and leaves the application no record and no live object
      that its passes created; a plain YAML `Clear` leaves nothing live that was on record; and
      no object that no manifest ever named has changed. */
  lemma CleanTeardown(env: Env, w: World, steps: seq<Step>, last: Step, claims: set<Claim>)
    requires Separate(claims) && RunInv(env, w, claims) && Orphans(w) == {}
    requires !IsSync(last) && ValidRun(env, w, claims, steps + [last])
    requires Quiet(env, w.clock, Final(env, w, steps + [last]).clock)
    ensures var u := Final(env, w, steps);
            var v := Final(env, w, steps + [last]);
            && Do(env, u, last) == Ran(v, true)
            && (forall rk | rk in v.ledger :: v.ledger[rk].labelValue != Label(last.job.app))
            && (forall c | c in v.created :: c.app != last.job.app)
            && (last.ClearStep? ==> forall rk | rk in u.ledger && u.ledger[rk].labelValue == Label(last.job.app) ::
                  u.ledger[rk].spec !in v.target)
            && SameOff(AllKeys(claims), w.target, v.target)
  {
    var u := Final(env, w, steps);
    var v := Final(env, w, steps + [last]);
    FinalOfLast(env, w, steps, last, claims);
    QuietFinal(env, w, steps, last, claims);
    QuietRun(env, w, steps + [last], claims);
    if last.ClearStep? {
      ClearKeeps(env, last.job, u, last.listing, claims);
    } else {
      H.ClearClears(env, u, last.job.app, last.listing, claims);
    }
    assert Rks(last.job.app, []) == {};
    forall c | c in v.created
      ensures c.app != last.job.app
    {
      assert c !in Orphans(v);
      assert v.ledger[Rk(c)] == RecordOf(c);
    }
  }

  lemma QuietFinal(env: Env, w: World, steps: seq<Step>, last: Step, claims: set<Claim>)
    requires Separate(claims) && RunInv(env, w, claims) && ValidRun(env, w, claims, steps + [last])
    requires Quiet(env, w.clock, Final(env, w, steps + [last]).clock)
    ensures var u := Final(env, w, steps);
            RunInv(env, u, claims) && Valid(env, u, claims, last) && Do(env, u, last).ok
  {
    FinalOfLast(env, w, steps, last, claims);
    OrphansBoundedByFaults(env, w, steps, claims);
    DoKeeps(env, Final(env, w, steps), last, claims);
  }

  /** The invariant holds before the operator has done anything. */
  lemma InvAtFirst(env: Env, w: World, claims: set<Claim>)
    requires w.created == {}
    requires forall rk, c | rk in w.ledger && c in claims :: rk != Rk(c) && w.ledger[rk].labelValue != Label(c.app)
    ensures RunInv(env, w, claims) && Orphans(w) == {}
  {
  }

  /** Why no two objects may share a record: the second is never recorded, so that clearing the
      record they share removes the first and leaves the second live with no record at all,
      although no call has failed. */
  lemma SharedRecordForgets(env: Env, w: World, c: Claim, d: Claim)
    requires Rk(c) == Rk(d) && c.key != d.key
    requires Rk(c) !in w.ledger && d.key in w.target
    requires Quiet(env, w.clock, w.clock + 6)
    ensures var u := UpdateRecord(env, UpdateRecord(env, w, c).w, d);
            var r := ClearResource(env, u.w, Listed(Rk(d), RecordOf(c)));
            && u.reply == Done && u.w.ledger == w.ledger[Rk(c) := RecordOf(c)]
            && r.reply == Done && r.w.ledger == w.ledger
            && c.key !in r.w.target && d.key in r.w.target
  {
    assert !env.fails(w.clock) && !env.fails(w.clock + 1) && !env.fails(w.clock + 2);
    assert !env.fails(w.clock + 3) && !env.fails(w.clock + 4) && !env.fails(w.clock + 5);
    assert w.ledger[Rk(c) := RecordOf(c)] - {Rk(c)} == w.ledger;
  }
}
