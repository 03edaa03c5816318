/** The Helm manager's ledger: a second implementation of the same bookkeeping. Rendering
    and installing charts is Helm's work; here those are calls that may fail, and a failed
    install takes the whole process down. */
module Helm {
  import opened Collections
  import opened Json
  import opened Ledger
  import opened Cluster
  import opened Reconcile
  import opened Safety
  import opened PlainYaml

  /** What `os.Stat` reports of the local clone: there is none, there is one, or it cannot tell. */
  datatype Clone = NoClone | Cloned | Unreadable

  datatype End = Ok | Error | Panic

  datatype HelmRun = HelmRun(w: World, status: Status, end: End)

  /** Clone if there is no clone, pull if there is one, and otherwise carry on. */
  function PrepareRepo(env: Env, w: World, clone: Clone): Call {
    if clone == Unreadable then Call(w, Done) else Fetch(env, w)
  }

  /** Before the loop, in order: repository, target client, records, rendered chart. The
      result is the world and how far things went. */
  function Ready(env: Env, w: World, clone: Clone): (World, End) {
    var c0 := PrepareRepo(env, w, clone);
    if c0.reply != Done then (c0.w, Error)
    else
      var c1 := Fetch(env, c0.w);
      if c1.reply != Done then (c1.w, Error)
      else
        var c2 := Fetch(env, c1.w);
        if c2.reply != Done then (c2.w, Error)
        else
          var c3 := Fetch(env, c2.w);
          (c3.w, if c3.reply == Done then Ok else Panic)
  }

  /** One document of the rendered chart: blank, or an object with the namespace filled in. */
  datatype Document = Blank | Decoded(m: Manifest)

  /** One document: converted, and if it is not blank the target client is set again and the
      document decoded. Converting and decoding may fail, and count as calls. */
  function DecodeOne(env: Env, w: World, doc: Document): Call {
    var converted := Fetch(env, w);
    if converted.reply != Done || doc.Blank? then converted
    else
      var client := Fetch(env, converted.w);
      if client.reply != Done then client else Fetch(env, client.w)
  }

  function DecodeAll(env: Env, w: World, docs: seq<Document>): Call
    decreases docs
  {
    if docs == [] then Call(w, Done)
    else
      var c := DecodeOne(env, w, docs[0]);
      if c.reply == Done then DecodeAll(env, c.w, docs[1..]) else c
  }

  /** The objects the documents hold, in order. */
  function Rendered(docs: seq<Document>): seq<Manifest> {
    if docs == [] then []
    else (if docs[0].Blank? then [] else [docs[0].m]) + Rendered(docs[1..])
  }

  lemma {:induction false} RenderedSnoc(docs: seq<Document>, d: Document)
    ensures Rendered(docs + [d]) == Rendered(docs) + (if d.Blank? then [] else [d.m])
  {
    if docs == [] {
      assert docs + [d] == [d];
      assert [d][1..] == [];
    } else {
      ConcatTail(docs, [d]);
      RenderedSnoc(docs[1..], d);
      var head := if docs[0].Blank? then [] else [docs[0].m];
      ConcatAssociates(head, Rendered(docs[1..]), if d.Blank? then [] else [d.m]);
    }
  }

  /** Record every object, stopping at the first error. */
  function RecordAll(env: Env, app: App, p: Pass, ms: seq<Manifest>): Outcome
    decreases ms
  {
    if ms == [] then Outcome(p, true)
    else
      var r := UpdateRecord(env, p.w, Claim(app, ms[0].key));
      if r.reply != Done then Outcome(p.(w := r.w), false)
      else RecordAll(env, app, p.(w := r.w, updated := p.updated + {RecordName(app, ms[0].key)}), ms[1..])
  }

  function HelmSync(env: Env, job: Job, w: World, status: Status, clone: Clone,
                    docs: seq<Document>, listing: seq<Listed>): HelmRun {
    var (w0, end) := Ready(env, w, clone);
    if end != Ok then HelmRun(w0, status, end)
    else
      var decoded := DecodeAll(env, w0, docs);
      if decoded.reply != Done then HelmRun(decoded.w, status, Error)
      else
        var o := RecordAll(env, job.app, Pass(decoded.w, status, {}), Rendered(docs));
        if !o.ok then HelmRun(o.p.w, status, Error)
        else
          var pruned := Prune(env, o.p.w, listing, o.p.updated);
          if pruned.reply != Done then HelmRun(pruned.w, status, Error)
          else if !Applies(job) then HelmRun(pruned.w, status, Ok)
          else
            var installed := Fetch(env, pruned.w);
            if installed.reply == Done then HelmRun(installed.w, Synced, Ok)
            else HelmRun(installed.w, status, Panic)
  }

  /** `Clear` uninstalls the release first and then drops records, leaving objects to Helm. */
  function DropRecords(env: Env, w: World, listing: seq<Listed>): Call
    decreases listing
  {
    if listing == [] then Call(w, Done)
    else
      var c := DeleteRecord(env, w, listing[0].rk);
      if c.reply == Done then DropRecords(env, c.w, listing[1..]) else Call(c.w, Failed)
  }

  /** The target client, the release and the list of records come first. */
  function BeforeDrop(env: Env, w: World): Call {
    var c0 := Fetch(env, w);
    if c0.reply != Done then c0
    else
      var c1 := Fetch(env, c0.w);
      if c1.reply != Done then c1 else Fetch(env, c1.w)
  }

  function HelmClear(env: Env, w: World, listing: seq<Listed>): Call {
    var c := BeforeDrop(env, w);
    if c.reply != Done then c else DropRecords(env, c.w, listing)
  }

  // ---------- the same ledger specification ----------

  lemma DecodeOneKeeps(env: Env, app: App, w: World, doc: Document, claims: set<Claim>)
    requires Inv(w, claims)
    ensures var c := DecodeOne(env, w, doc);
            && c.w == w.(clock := c.w.clock)
            && PassKeeps(env, app, claims, w, c.w, c.reply == Done)
  {
    var converted := Fetch(env, w);
    FetchIsPass(env, app, claims, w);
    if converted.reply == Done && !doc.Blank? {
      var client := Fetch(env, converted.w);
      FetchIsPass(env, app, claims, converted.w);
      PassThenPass(env, app, claims, w, converted.w, client.w, client.reply == Done);
      if client.reply == Done {
        var decoded := Fetch(env, client.w);
        FetchIsPass(env, app, claims, client.w);
        PassThenPass(env, app, claims, w, client.w, decoded.w, decoded.reply == Done);
      }
    }
  }

  lemma {:induction false} DecodeKeeps(env: Env, app: App, w: World, docs: seq<Document>, claims: set<Claim>)
    requires Inv(w, claims)
    ensures var c := DecodeAll(env, w, docs);
            && c.w == w.(clock := c.w.clock)
            && PassKeeps(env, app, claims, w, c.w, c.reply == Done)
    decreases docs
  {
    if docs != [] {
      var c := DecodeOne(env, w, docs[0]);
      DecodeOneKeeps(env, app, w, docs[0], claims);
      if c.reply == Done {
        DecodeKeeps(env, app, c.w, docs[1..], claims);
        var d := DecodeAll(env, c.w, docs[1..]);
        PassThenPass(env, app, claims, w, c.w, d.w, d.reply == Done);
      }
    }
  }

  lemma ReadyKeeps(env: Env, app: App, w: World, clone: Clone, claims: set<Claim>)
    requires Inv(w, claims)
    ensures var (v, end) := Ready(env, w, clone);
            && v == w.(clock := v.clock)
            && PassKeeps(env, app, claims, w, v, end == Ok)
  {
    var c0 := PrepareRepo(env, w, clone);
    FetchIsPass(env, app, claims, w);
    if c0.reply == Done {
      var c1 := Fetch(env, c0.w);
      FetchIsPass(env, app, claims, c0.w);
      PassThenPass(env, app, claims, w, c0.w, c1.w, c1.reply == Done);
      if c1.reply == Done {
        var c2 := Fetch(env, c1.w);
        FetchIsPass(env, app, claims, c1.w);
        PassThenPass(env, app, claims, w, c1.w, c2.w, c2.reply == Done);
        if c2.reply == Done {
          FetchIsPass(env, app, claims, c2.w);
          var c3 := Fetch(env, c2.w);
          PassThenPass(env, app, claims, w, c2.w, c3.w, c3.reply == Done);
        }
      }
    }
  }

  lemma {:induction false} RecordAllKeeps(env: Env, app: App, p: Pass, ms: seq<Manifest>, claims: set<Claim>)
    requires Separate(claims) && Inv(p.w, claims) && Within(app, ms, claims)
    ensures var o := RecordAll(env, app, p, ms);
            && Inv(o.p.w, claims)
            && StopsAtFault(env, p.w.clock, o.p.w.clock, o.ok)
            && Advances(app, ms, p, o.p, o.ok)
            && o.p.w.created == p.w.created
    decreases ms
  {
    if ms != [] {
      var c := Claim(app, ms[0].key);
      var r := UpdateRecord(env, p.w, c);
      UpdateRecordKeeps(env, p.w, c, claims);
      assert ms == [ms[0]] + ms[1..];
      if r.reply == Done {
        var q := p.(w := r.w, updated := p.updated + {RecordName(app, ms[0].key)});
        OneObjectAdvances(app, ms[0], p, true, q, true);
        RecordAllKeeps(env, app, q, ms[1..], claims);
        var o := RecordAll(env, app, q, ms[1..]);
        AdvancesCompose(app, [ms[0]], ms[1..], p, q, o.p, o.ok);
        StopsThenStops(env, p.w.clock, r.w.clock, o.p.w.clock, o.ok);
      } else {
        OneObjectAdvances(app, ms[0], p, false, p.(w := r.w), false);
        AdvancesStopped(app, [ms[0]], ms[1..], p, p.(w := r.w));
      }
    }
  }

  lemma BookkeepingKeeps(env: Env, job: Job, p: Pass, ms: seq<Manifest>, listing: seq<Listed>, claims: set<Claim>)
    requires Separate(claims) && Inv(p.w, claims) && Claimant(job.app, claims)
    requires Within(job.app, ms, claims) && p.updated == {}
    requires IsListing(p.w.ledger, Label(job.app), listing)
    ensures var o := RecordAll(env, job.app, p, ms);
            var r := Prune(env, o.p.w, listing, o.p.updated);
            && PassKeeps(env, job.app, claims, p.w, o.p.w, o.ok)
            && o.p.w.created == p.w.created
            && (o.ok ==> PassKeeps(env, job.app, claims, p.w, r.w, r.reply == Done) && r.w.created <= p.w.created)
            && (o.ok && r.reply == Done ==> ExactLedger(job.app, ms, r.w.ledger))
  {
    RecordAllKeeps(env, job.app, p, ms, claims);
    var o := RecordAll(env, job.app, p, ms);
    AdvancesIsPass(env, job.app, ms, claims, p, o.p, o.ok);
    if o.ok {
      PruneLeavesExact(env, job.app, ms, claims, p, o.p, listing);
      PruneIsPass(env, o.p.w, job.app, listing, o.p.updated, claims);
      PruneKeeps(env, o.p.w, job.app, listing, o.p.updated, claims);
      var r := Prune(env, o.p.w, listing, o.p.updated);
      PassThenPass(env, job.app, claims, p.w, o.p.w, r.w, r.reply == Done);
    }
  }

  /** The Helm manager keeps what the plain YAML manager keeps, panic or not, and creates
      nothing itself; after a successful pass its records too are exactly those of the rendered
      objects. */
  lemma SyncKeeps(env: Env, job: Job, w: World, status: Status, clone: Clone,
                  docs: seq<Document>, listing: seq<Listed>, claims: set<Claim>)
    requires Separate(claims) && Inv(w, claims) && Claimant(job.app, claims)
    requires Within(job.app, Rendered(docs), claims)
    requires IsListing(w.ledger, Label(job.app), listing)
    ensures var o := HelmSync(env, job, w, status, clone, docs, listing);
            && PassKeeps(env, job.app, claims, w, o.w, o.end == Ok)
            && o.w.created <= w.created
            && (o.end == Ok ==> ExactLedger(job.app, Rendered(docs), o.w.ledger))
            && (o.status == Synced && status != Synced <==> status != Synced && o.end == Ok && Applies(job))
  {
    var app, ms := job.app, Rendered(docs);
    var (w0, end) := Ready(env, w, clone);
    ReadyKeeps(env, app, w, clone, claims);
    if end == Ok {
      var decoded := DecodeAll(env, w0, docs);
      DecodeKeeps(env, app, w0, docs, claims);
      PassThenPass(env, app, claims, w, w0, decoded.w, decoded.reply == Done);
      if decoded.reply == Done {
        var p := Pass(decoded.w, status, {});
        BookkeepingKeeps(env, job, p, ms, listing, claims);
        var o := RecordAll(env, app, p, ms);
        PassThenPass(env, app, claims, w, decoded.w, o.p.w, o.ok);
        if o.ok {
          var pruned := Prune(env, o.p.w, listing, o.p.updated);
          PassThenPass(env, app, claims, w, decoded.w, pruned.w, pruned.reply == Done);
          if pruned.reply == Done && Applies(job) {
            var installed := Fetch(env, pruned.w);
            FetchIsPass(env, app, claims, pruned.w);
            PassThenPass(env, app, claims, w, pruned.w, installed.w, installed.reply == Done);
          }
        }
      }
    }
  }

  /** From `l` to `m` nothing but these records may have gone. */
  ghost predicate OnlyDrops(l: map<RecKey, Record>, m: map<RecKey, Record>, rks: set<RecKey>) {
    l.Keys - rks <= m.Keys <= l.Keys && forall rk | rk in m :: m[rk] == l[rk]
  }

  lemma DeleteRecordShape(env: Env, w: World, rk: RecKey)
    requires rk in w.ledger
    ensures var c := DeleteRecord(env, w, rk);
            && c.w.target == w.target && c.w.created == w.created
            && c.w.ledger == (if c.reply == Done then w.ledger - {rk} else w.ledger)
            && StopsAtFault(env, w.clock, c.w.clock, c.reply == Done)
  {
  }

  lemma {:induction false} DropRecordsDrops(env: Env, w: World, app: App, listing: seq<Listed>, claims: set<Claim>)
    requires ListedFor(w, app, claims, listing)
    ensures var r := DropRecords(env, w, listing);
            && r.w.target == w.target && r.w.created == w.created
            && StopsAtFault(env, w.clock, r.w.clock, r.reply == Done)
            && OnlyDrops(w.ledger, r.w.ledger, Dropped(listing, {}))
            && (r.reply == Done ==> r.w.ledger.Keys !! Dropped(listing, {}))
    decreases listing
  {
    if listing != [] {
      DroppedCons(listing, {});
      assert Holds(w.ledger, Label(app), listing[0]);
      var c := DeleteRecord(env, w, listing[0].rk);
      DeleteRecordShape(env, w, listing[0].rk);
      if c.reply == Done {
        ListedForRest(w, c.w, app, claims, listing);
        DropRecordsDrops(env, c.w, app, listing[1..], claims);
        var r := DropRecords(env, c.w, listing[1..]);
        StopsThenStops(env, w.clock, c.w.clock, r.w.clock, r.reply == Done);
      }
    }
  }

  /** A Helm `Clear` stops exactly at the first failing call; it keeps the invariant, and never
      touches objects or other applications' records. Objects a plain YAML pass has created for
      the application are left without a record: some of them if it fails, and if it succeeds
      all of them, with no record of the application left. */
  lemma ClearClears(env: Env, w: World, app: App, listing: seq<Listed>, claims: set<Claim>)
    requires Separate(claims) && Inv(w, claims) && Claimant(app, claims)
    requires IsListing(w.ledger, Label(app), listing)
    ensures var r := HelmClear(env, w, listing);
            && r.w.target == w.target && r.w.created == w.created
            && Inv(r.w, claims)
            && ForeignSame(app, w.ledger, r.w.ledger)
            && StopsAtFault(env, w.clock, r.w.clock, r.reply == Done)
            && Orphans(w) <= Orphans(r.w) <= Orphans(w) + CreatedBy(w, app)
            && (r.reply == Done ==>
                  && ExactLedger(app, [], r.w.ledger)
                  && Orphans(r.w) == Orphans(w) + CreatedBy(w, app))
  {
    var c := BeforeDrop(env, w);
    BeforeDropShape(env, w);
    if c.reply == Done {
      ListingIsFor(w, app, claims, listing);
      ListedForLater(w, c.w, app, claims, listing);
      DroppedAreOwn(w, app, claims, listing, {});
      DropRecordsDrops(env, c.w, app, listing, claims);
      var r := DropRecords(env, c.w, listing);
      StopsThenStops(env, w.clock, c.w.clock, r.w.clock, r.reply == Done);
      forall rk | rk in w.ledger && w.ledger[rk].labelValue == Label(app)
        ensures rk in Dropped(listing, {})
      {
        assert Listed(rk, w.ledger[rk]) in listing;
      }
      assert Rks(app, []) == {};
      DropsOrphan(w, r.w, app, claims);
    }
  }

  /** What dropping records of one application does to the objects without a record. */
  lemma DropsOrphan(w: World, v: World, app: App, claims: set<Claim>)
    requires Separate(claims) && Inv(w, claims) && Claimant(app, claims)
    requires v.created == w.created && v.target == w.target
    requires v.ledger.Keys <= w.ledger.Keys && forall rk | rk in v.ledger :: v.ledger[rk] == w.ledger[rk]
    requires forall rk | rk in w.ledger && rk !in v.ledger :: w.ledger[rk].labelValue == Label(app)
    ensures Inv(v, claims)
    ensures Orphans(w) <= Orphans(v) <= Orphans(w) + CreatedBy(w, app)
    ensures (forall rk | rk in v.ledger :: v.ledger[rk].labelValue != Label(app))
        ==> Orphans(v) == Orphans(w) + CreatedBy(w, app)
  {
    var d :| d in claims && d.app == app;
    forall c | c in w.created && Rk(c) in w.ledger
      ensures w.ledger[Rk(c)].labelValue == Label(app) <==> c.app == app
    {
      assert w.ledger[Rk(c)] == RecordOf(c);
    }
  }

  /** An application none of whose live objects plain YAML passes have created loses no track. */
  lemma ClearIsPass(env: Env, w: World, app: App, listing: seq<Listed>, claims: set<Claim>)
    requires Separate(claims) && Inv(w, claims) && Claimant(app, claims)
    requires IsListing(w.ledger, Label(app), listing)
    requires CreatedBy(w, app) == {}
    ensures var r := HelmClear(env, w, listing);
            PassKeeps(env, app, claims, w, r.w, r.reply == Done)
  {
    ClearClears(env, w, app, listing, claims);
  }

  lemma BeforeDropShape(env: Env, w: World)
    ensures var c := BeforeDrop(env, w);
            c.w == w.(clock := c.w.clock) && StopsAtFault(env, w.clock, c.w.clock, c.reply == Done)
  {
  }

  // ---------- the manager as it runs ----------

  class HelmManager {
    const api: Api

    constructor (api: Api)
      ensures this.api == api
    {
      this.api := api;
    }

    /** Everything before the loop, with the records listed along the way. */
    method Prepare(app: Application, clone: Clone) returns (end: End, listing: seq<Listed>)
      modifies api
      ensures (api.W(), end) == Ready(api.env, old(api.W()), clone)
      ensures end == Ok ==> IsListing(old(api.ledger), Label(app.app), listing)
    {
      end, listing := Error, [];
      var r := Done;
      if clone == NoClone {
        r := api.Fetch();  // clone
      } else if clone == Cloned {
        r := api.Fetch();  // pull
      }
      if r != Done {
        return;
      }
      r := api.Fetch();  // target client
      if r != Done {
        return;
      }
      r, listing := api.ListRecords(Label(app.app));
      if r != Done {
        return;
      }
      r := api.Fetch();  // rendering, by a dry-run install
      end := if r == Done then Ok else Panic;
    }

    method Decode(docs: seq<Document>) returns (r: Reply, ms: seq<Manifest>)
      modifies api
      ensures Call(api.W(), r) == DecodeAll(api.env, old(api.W()), docs)
      ensures r == Done ==> ms == Rendered(docs)
    {
      ms := [];
      var i := 0;
      r := Done;
      while i < |docs|
        invariant 0 <= i <= |docs| && r == Done
        invariant ms == Rendered(docs[..i])
        invariant DecodeAll(api.env, old(api.W()), docs) == DecodeAll(api.env, api.W(), docs[i..])
      {
        assert docs[..i + 1] == docs[..i] + [docs[i]];
        RenderedSnoc(docs[..i], docs[i]);
        var doc := docs[i];
        i := i + 1;
        r := api.Fetch();  // conversion from YAML
        if r != Done {
          return;
        }
        if doc.Blank? {
          continue;
        }
        r := api.Fetch();  // target client
        if r != Done {
          return;
        }
        r := api.Fetch();  // decoding
        if r != Done {
          return;
        }
        ms := ms + [doc.m];
      }
      assert docs[..i] == docs;
    }

    method RecordObjects(app: Application, ms: seq<Manifest>) returns (ok: bool, updated: set<string>)
      modifies api
      ensures Outcome(Pass(api.W(), app.status, updated), ok)
           == RecordAll(api.env, app.app, Pass(old(api.W()), app.status, {}), ms)
    {
      updated := {};
      var i := 0;
      while i < |ms|
        invariant 0 <= i <= |ms|
        invariant RecordAll(api.env, app.app, Pass(old(api.W()), app.status, {}), ms)
               == RecordAll(api.env, app.app, Pass(api.W(), app.status, updated), ms[i..])
      {
        var r, name := UpdateDeployResource(api, app.app, ms[i].key);
        if r != Done {
          return false, updated;
        }
        updated := updated + {name};
        i := i + 1;
      }
      ok := true;
    }

    method Sync(app: Application, forced: bool, clone: Clone, docs: seq<Document>)
      returns (end: End, ghost listing: seq<Listed>)
      modifies api, app`status
      ensures IsListing(old(api.ledger), Label(app.app), listing)
      ensures HelmRun(api.W(), app.status, end)
           == HelmSync(api.env, app.JobFor(forced), old(api.W()), old(app.status), clone, docs, listing)
    {
      listing := SomeListing(api.ledger, Label(app.app));
      var oldResources: seq<Listed>;
      end, oldResources := Prepare(app, clone);
      if end != Ok {
        return;
      }
      listing := oldResources;
      var r, ms := Decode(docs);
      if r != Done {
        return Error, listing;
      }
      var ok, updated := RecordObjects(app, ms);
      if !ok {
        return Error, listing;
      }
      r := PruneResources(api, oldResources, updated);
      if r != Done {
        return Error, listing;
      }
      if forced || app.autoSync {
        r := api.Fetch();  // install
        if r != Done {
          return Panic, listing;
        }
        app.status := Synced;
      }
    }

    method Clear(app: Application) returns (r: Reply, ghost listing: seq<Listed>)
      modifies api
      ensures IsListing(old(api.ledger), Label(app.app), listing)
      ensures Call(api.W(), r) == HelmClear(api.env, old(api.W()), listing)
    {
      listing := SomeListing(api.ledger, Label(app.app));
      r := api.Fetch();  // target client
      if r != Done {
        return;
      }
      r := api.Fetch();  // release
      if r != Done {
        return;
      }
      var deployed: seq<Listed>;
      r, deployed := api.ListRecords(Label(app.app));
      if r != Done {
        return;
      }
      listing := deployed;
      var i := 0;
      while i < |deployed|
        invariant 0 <= i <= |deployed| && r == Done
        invariant HelmClear(api.env, old(api.W()), listing) == DropRecords(api.env, api.W(), deployed[i..])
      {
        r := api.DeleteRecord(deployed[i].rk);
        if r != Done {
          return Failed, listing;
        }
        i := i + 1;
      }
    }
  }
}
