/** The plain YAML manager as it runs: clients, an application whose status it sets, and
    manifest objects it edits in place. Each method is tied to the pass it performs. */
module PlainYaml {
  import opened Strings
  import opened Json
  import opened Ledger
  import opened Cluster
  import opened Reconcile

  /** The API server behind both clients. `created` and `log` are history, for the proofs. */
  class Api {
    const env: Env
    var ledger: map<RecKey, Record>
    var target: map<ObjKey, Json>
    var clock: nat
    ghost var created: set<Claim>
    ghost var log: seq<Write>

    ghost function W(): World
      reads this
    {
      World(ledger, target, created, log, clock)
    }

    constructor (env: Env, ledger: map<RecKey, Record>, target: map<ObjKey, Json>)
      ensures this.env == env && W() == World(ledger, target, {}, [], 0)
    {
      this.env := env;
      this.ledger, this.target, this.clock := ledger, target, 0;
      this.created, this.log := {}, [];
    }

    method Fetch() returns (r: Reply)
      modifies this
      ensures Call(W(), r) == Cluster.Fetch(env, old(W()))
    {
      r := if env.fails(clock) then Failed else Done;
      clock := clock + 1;
    }

    method GetRecord(rk: RecKey) returns (r: Reply)
      modifies this
      ensures Call(W(), r) == Cluster.GetRecord(env, old(W()), rk)
    {
      r := if env.fails(clock) then Failed else if rk in ledger then Done else NotFound;
      clock := clock + 1;
    }

    method CreateRecord(rk: RecKey, rec: Record) returns (r: Reply)
      modifies this
      ensures Call(W(), r) == Cluster.CreateRecord(env, old(W()), rk, rec)
    {
      r := if env.fails(clock) || rk in ledger then Failed else Done;
      clock := clock + 1;
      if r == Done {
        ledger := ledger[rk := rec];
        log := log + [RecordCreated(rk)];
      }
    }

    method DeleteRecord(rk: RecKey) returns (r: Reply)
      modifies this
      ensures Call(W(), r) == Cluster.DeleteRecord(env, old(W()), rk)
    {
      r := if env.fails(clock) then Failed else if rk in ledger then Done else NotFound;
      clock := clock + 1;
      if r == Done {
        ledger := ledger - {rk};
        log := log + [RecordDeleted(rk)];
      }
    }

    method ListRecords(labelValue: string) returns (r: Reply, listing: seq<Listed>)
      modifies this
      ensures Call(W(), r) == Cluster.Fetch(env, old(W()))
      ensures r == Done ==> IsListing(ledger, labelValue, listing)
    {
      listing := [];
      r := if env.fails(clock) then Failed else Done;
      clock := clock + 1;
      if r == Done {
        var rest := ledger.Keys;
        while rest != {}
          invariant rest <= ledger.Keys
          invariant forall i | 0 <= i < |listing| :: Holds(ledger, labelValue, listing[i]) && listing[i].rk !in rest
          invariant forall i, j | 0 <= i < j < |listing| :: listing[i].rk != listing[j].rk
          invariant forall rk | rk in ledger && rk !in rest && ledger[rk].labelValue == labelValue ::
                      Listed(rk, ledger[rk]) in listing
          decreases |rest|
        {
          var rk :| rk in rest;
          rest := rest - {rk};
          if ledger[rk].labelValue == labelValue {
            listing := listing + [Listed(rk, ledger[rk])];
          }
        }
      }
    }

    method GetObject(key: ObjKey) returns (r: Reply, body: Json)
      modifies this
      ensures Call(W(), r) == Cluster.GetObject(env, old(W()), key)
      ensures r == Done ==> key in target && body == target[key]
    {
      r, body := if env.fails(clock) then Failed else if key in target then Done else NotFound, Null;
      clock := clock + 1;
      if r == Done {
        body := target[key];
      }
    }

    method CreateObject(ghost c: Claim, key: ObjKey, body: Json) returns (r: Reply)
      requires c.key == key
      modifies this
      ensures Call(W(), r) == Cluster.CreateObject(env, old(W()), c, body)
    {
      r := if env.fails(clock) || key in target then Failed else Done;
      clock := clock + 1;
      if r == Done {
        target := target[key := env.norm(body)];
        created, log := created + {c}, log + [ObjectCreated(key)];
      }
    }

    /** Answers with the object as the server would store it. */
    method DryRunUpdate(key: ObjKey, body: Json) returns (r: Reply, stored: Json)
      modifies this
      ensures Call(W(), r) == Cluster.DryRunUpdate(env, old(W()), key)
      ensures stored == env.norm(body)
    {
      r, stored := if env.fails(clock) then Failed else if key in target then Done else NotFound, env.norm(body);
      clock := clock + 1;
    }

    method UpdateObject(key: ObjKey, body: Json) returns (r: Reply)
      modifies this
      ensures Call(W(), r) == Cluster.UpdateObject(env, old(W()), key, body)
    {
      r := if env.fails(clock) then Failed else if key in target then Done else NotFound;
      clock := clock + 1;
      if r == Done {
        target := target[key := env.norm(body)];
        log := log + [ObjectUpdated(key)];
      }
    }

    method DeleteObject(key: ObjKey) returns (r: Reply)
      modifies this
      ensures Call(W(), r) == Cluster.DeleteObject(env, old(W()), key)
    {
      r := if env.fails(clock) then Failed else if key in target then Done else NotFound;
      clock := clock + 1;
      if r == Done {
        target := target - {key};
        created, log := (set c | c in created && c.key != key), log + [ObjectDeleted(key)];
      }
    }
  }

  class Application {
    const app: App
    const autoSync: bool
    const destination: string
    var status: Status

    constructor (app: App, autoSync: bool, destination: string)
      ensures this.app == app && this.autoSync == autoSync && this.destination == destination && status == Unknown
    {
      this.app, this.autoSync, this.destination, this.status := app, autoSync, destination, Unknown;
    }

    function JobFor(forced: bool): (job: Job)
      ensures job.app == app && (Applies(job) <==> autoSync || forced) && (job.remote <==> destination != "")
    {
      Job(app, autoSync, forced, destination != "")
    }
  }

  /** A manifest object: its content is replaced while it is compared. */
  class Unstructured {
    const key: ObjKey
    var body: Json

    constructor (m: Manifest)
      ensures key == m.key && body == m.body
    {
      key, body := m.key, m.body;
    }
  }

  /** `getDeployResourceList` and `updateDeployResource`, shared with the Helm manager. */
  method UpdateDeployResource(api: Api, app: App, key: ObjKey) returns (r: Reply, name: string)
    modifies api
    ensures Call(api.W(), r) == UpdateRecord(api.env, old(api.W()), Claim(app, key))
    ensures name == RecordName(app, key)
    ensures Lowered(app.name + "-" + key.kind + "-" + key.name + "-" + key.ns, name)
    ensures r == Done ==> RecKey(app.ns, name) in api.ledger
    ensures r == Done && RecKey(app.ns, name) !in old(api.ledger) ==>
              api.ledger[RecKey(app.ns, name)] == Record(app.name + "-" + app.ns, app.name, key)
  {
    RecordNameIs(app, key);
    var c := Claim(app, key);
    name := RecordName(app, key);
    r := api.GetRecord(Rk(c));
    if r == NotFound {
      r := api.CreateRecord(Rk(c), RecordOf(c));
    }
  }

  /** `clearApplicationResources`, and `deleteDeployResource`, which is the same code. */
  method ClearApplicationResources(api: Api, l: Listed) returns (r: Reply)
    modifies api
    ensures Call(api.W(), r) == ClearResource(api.env, old(api.W()), l)
  {
    r := api.DeleteRecord(l.rk);
    if r != Done {
      return Failed;
    }
    var got, _ := api.GetObject(l.rec.spec);
    if got != Done {
      return if got == NotFound then Done else Failed;
    }
    r := api.DeleteObject(l.rec.spec);
    if r != Done {
      r := Failed;
    }
  }

  /** The prune, of a listing taken earlier. */
  method PruneResources(api: Api, listing: seq<Listed>, keep: set<string>) returns (r: Reply)
    modifies api
    ensures Call(api.W(), r) == Prune(api.env, old(api.W()), listing, keep)
  {
    var i := 0;
    while i < |listing|
      invariant 0 <= i <= |listing|
      invariant Prune(api.env, old(api.W()), listing, keep) == Prune(api.env, api.W(), listing[i..], keep)
    {
      if listing[i].rk.name !in keep {
        r := ClearApplicationResources(api, listing[i]);
        if r != Done {
          return;
        }
      }
      i := i + 1;
    }
    r := Done;
  }

  class PlainYamlManager {
    const api: Api

    constructor (api: Api)
      ensures this.api == api
    {
      this.api := api;
    }

    method SetTargetClient(app: Application) returns (r: Reply)
      modifies api
      ensures Call(api.W(), r) == SetTarget(api.env, app.JobFor(false), old(api.W()))
      ensures api.clock == old(api.clock) + (if app.destination == "" then 0 else 1)
    {
      r := Done;
      if app.destination != "" {
        r := api.Fetch();
      }
    }

    /** The two results are the object to store, if any, and the error, if any. */
    method CompareDeployWithManifest(app: Application, obj: Unstructured) returns (modified: Unstructured?, err: Reply)
      modifies api, app`status, obj`body
      ensures var cmp := Compare(api.env, old(api.W()), old(app.status), Manifest(obj.key, old(obj.body)));
              && api.W() == cmp.w && app.status == cmp.status
              && match cmp.verdict {
                   case Missing => modified == obj && err == NotFound && obj.body == old(obj.body)
                   case Broken => modified == null && err != Done
                   case Same => modified == null && err == Done
                   case Differs(body) => modified == obj && err == Done && obj.body == body
                 }
    {
      var deployed: Json;
      err, deployed := api.GetObject(obj.key);
      if err == NotFound {
        app.status := OutOfSync;
        return obj, NotFound;
      } else if err != Done {
        return null, err;
      }
      obj.body := Merge(deployed, obj.body);
      var stored: Json;
      err, stored := api.DryRunUpdate(obj.key, obj.body);
      if err != Done {
        return null, err;
      }
      obj.body := stored;
      if api.env.render(deployed) != api.env.render(obj.body) {
        app.status := OutOfSync;
        return obj, Done;
      }
      return null, Done;
    }

    method ApplyManifest(found: bool, obj: Unstructured, ghost c: Claim) returns (r: Reply)
      requires c.key == obj.key
      modifies api
      ensures Call(api.W(), r) == Apply(api.env, old(api.W()), c, obj.body, found)
    {
      if !found {
        r := api.CreateObject(c, obj.key, obj.body);
      } else {
        r := api.UpdateObject(obj.key, obj.body);
      }
    }

    /** The body of the loop over objects. */
    method SyncObject(app: Application, forced: bool, m: Manifest, updated: set<string>)
      returns (ok: bool, updated': set<string>)
      modifies api, app`status
      ensures Outcome(Pass(api.W(), app.status, updated'), ok)
           == ObjectStep(api.env, app.JobFor(forced), Pass(old(api.W()), old(app.status), updated), m)
    {
      var obj := new Unstructured(m);
      var r, name := UpdateDeployResource(api, app.app, obj.key);
      if r != Done {
        return false, updated;
      }
      updated' := updated + {name};
      var modified, err := CompareDeployWithManifest(app, obj);
      if modified == null && err != Done {
        return false, updated';
      }
      ok := true;
      if modified != null && (app.autoSync || forced) {
        r := ApplyManifest(err == Done, modified, Claim(app.app, m.key));
        ok := r == Done;
      }
    }

    /** The loop over the objects of one file, seen as a part of the whole loop: `after` is
        what the files that follow contribute. */
    method SyncObjects(app: Application, forced: bool, objs: seq<Manifest>, before: set<string>, ghost after: seq<Item>)
      returns (ok: bool, updated: set<string>)
      modifies api, app`status
      ensures RunItems(api.env, app.JobFor(forced), Pass(old(api.W()), old(app.status), before),
                       ObjectItems(objs) + after)
           == if ok then RunItems(api.env, app.JobFor(forced), Pass(api.W(), app.status, updated), after)
              else Outcome(Pass(api.W(), app.status, updated), false)
    {
      updated := before;
      ghost var job := app.JobFor(forced);
      ghost var whole := RunItems(api.env, job, Pass(api.W(), app.status, before), ObjectItems(objs) + after);
      var j := 0;
      assert objs[0..] == objs;
      while j < |objs|
        invariant 0 <= j <= |objs|
        invariant whole == RunItems(api.env, job, Pass(api.W(), app.status, updated), ObjectItems(objs[j..]) + after)
      {
        ghost var items := ObjectItems(objs[j..]) + after;
        assert items[0] == Object(objs[j]);
        assert items[1..] == ObjectItems(objs[j + 1..]) + after;
        ok, updated := SyncObject(app, forced, objs[j], updated);
        if !ok {
          return;
        }
        j := j + 1;
      }
      assert ObjectItems(objs[j..]) + after == after;
      ok := true;
    }

    /** The loop over files. */
    method SyncFiles(app: Application, forced: bool, files: seq<seq<Manifest>>) returns (ok: bool, updated: set<string>)
      modifies api, app`status
      ensures Outcome(Pass(api.W(), app.status, updated), ok)
           == RunItems(api.env, app.JobFor(forced), Pass(old(api.W()), old(app.status), {}), Items(files))
    {
      updated := {};
      ghost var job := app.JobFor(forced);
      ghost var whole := RunItems(api.env, job, Pass(api.W(), app.status, {}), Items(files));
      var i := 0;
      while i < |files|
        invariant 0 <= i <= |files|
        invariant whole == RunItems(api.env, job, Pass(api.W(), app.status, updated), Items(files[i..]))
      {
        ghost var after := Items(files[i + 1..]);
        ghost var items := Items(files[i..]);
        assert files[i..][1..] == files[i + 1..];
        assert items[0] == File && items[1..] == ObjectItems(files[i]) + after;
        var r := api.Fetch();
        if r != Done {
          return false, updated;
        }
        ok, updated := SyncObjects(app, forced, files[i], updated, after);
        if !ok {
          return;
        }
        i := i + 1;
      }
      ok := true;
    }

    /** One pass. The ghost results name what the prune had to go by: the listing taken at
        the start, and the record names seen in the loop. */
    method Sync(app: Application, forced: bool, files: seq<seq<Manifest>>)
      returns (ok: bool, ghost listing: seq<Listed>, ghost seen: set<string>)
      modifies api, app`status
      ensures IsListing(old(api.ledger), Label(app.app), listing)
      ensures Outcome(Pass(api.W(), app.status, seen), ok)
           == Reconcile.Sync(api.env, app.JobFor(forced), old(api.W()), old(app.status), files, listing)
    {
      listing, seen := SomeListing(api.ledger, Label(app.app)), {};
      var r := SetTargetClient(app);
      if r != Done {
        return false, listing, seen;
      }
      r := api.Fetch();
      if r != Done {
        return false, listing, seen;
      }
      var oldResources: seq<Listed>;
      r, oldResources := api.ListRecords(Label(app.app));
      if r != Done {
        return false, listing, seen;
      }
      listing := oldResources;
      var updated: set<string>;
      ok, updated := SyncFiles(app, forced, files);
      seen := updated;
      if !ok {
        return;
      }
      r := PruneResources(api, oldResources, updated);
      if r != Done {
        ok := false;
        return;
      }
      if app.status == Unknown {
        app.status := Synced;
      }
    }

    method Clear(app: Application) returns (r: Reply, ghost listing: seq<Listed>)
      modifies api
      ensures IsListing(old(api.ledger), Label(app.app), listing)
      ensures Call(api.W(), r) == Reconcile.Clear(api.env, app.JobFor(false), old(api.W()), listing)
    {
      listing := SomeListing(api.ledger, Label(app.app));
      r := SetTargetClient(app);
      if r != Done {
        return;
      }
      var deployed: seq<Listed>;
      r, deployed := api.ListRecords(Label(app.app));
      if r != Done {
        return;
      }
      listing := deployed;
      r := PruneResources(api, deployed, {});
    }
  }

  /** Listings exist, whether or not the call that would return one succeeds. */
  ghost function SomeListing(ledger: map<RecKey, Record>, labelValue: string): (listing: seq<Listed>)
    ensures IsListing(ledger, labelValue, listing)
    decreases ledger.Keys
  {
    if ledger.Keys == {} then []
    else
      var rk :| rk in ledger.Keys;
      var rest := SomeListing(ledger - {rk}, labelValue);
      ListingExtends(ledger, labelValue, rk, rest);
      if ledger[rk].labelValue == labelValue then [Listed(rk, ledger[rk])] + rest else rest
  }

  lemma ListingExtends(ledger: map<RecKey, Record>, labelValue: string, rk: RecKey, rest: seq<Listed>)
    requires rk in ledger && IsListing(ledger - {rk}, labelValue, rest)
    ensures var all := if ledger[rk].labelValue == labelValue then [Listed(rk, ledger[rk])] + rest else rest;
            IsListing(ledger, labelValue, all)
  {
    var all := if ledger[rk].labelValue == labelValue then [Listed(rk, ledger[rk])] + rest else rest;
    assert forall i | 0 <= i < |rest| :: Holds(ledger - {rk}, labelValue, rest[i]);
    forall x | x in ledger && ledger[x].labelValue == labelValue
      ensures Listed(x, ledger[x]) in all
    {
      if x != rk {
        assert x in ledger - {rk};
        assert Listed(x, (ledger - {rk})[x]) in rest;
      }
    }
  }

  /** `CheckSync` for a plain YAML application. */
  method CheckSync(mgr: PlainYamlManager, app: Application, forced: bool, files: seq<seq<Manifest>>)
    returns (ok: bool, ghost listing: seq<Listed>, ghost seen: set<string>)
    modifies mgr.api, app`status
    ensures IsListing(old(mgr.api.ledger), Label(app.app), listing)
    ensures Outcome(Pass(mgr.api.W(), app.status, seen), ok)
         == Reconcile.CheckSync(mgr.api.env, app.JobFor(forced), old(mgr.api.W()), files, listing)
  {
    app.status := Unknown;
    ok, listing, seen := mgr.Sync(app, forced, files);
  }
}
