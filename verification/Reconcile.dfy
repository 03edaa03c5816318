/** One reconcile pass as a function of the world: what `Sync` and `Clear` of the plain
    YAML manager do, call by call, stopping at the first error. */
module Reconcile {
  import opened Collections
  import opened Json
  import opened Ledger
  import opened Cluster

  datatype Status = Unknown | Synced | OutOfSync

  /** One object decoded from a manifest file. */
  datatype Manifest = Manifest(key: ObjKey, body: Json)

  /** What a pass is asked to do: for which application, with automatic syncing on or the
      pass forced, and with the destination in another cluster or not. */
  datatype Job = Job(app: App, autoSync: bool, forced: bool, remote: bool)

  predicate Applies(job: Job) {
    job.autoSync || job.forced
  }

  // ---------- single operations ----------

  /** Record the object, keeping a record that is already there. */
  function UpdateRecord(env: Env, w: World, c: Claim): Call {
    var got := GetRecord(env, w, Rk(c));
    if got.reply == NotFound then CreateRecord(env, got.w, Rk(c), RecordOf(c)) else got
  }

  /** Drop the record first, then the object it names. */
  function ClearResource(env: Env, w: World, l: Listed): Call {
    var dropped := DeleteRecord(env, w, l.rk);
    if dropped.reply != Done then Call(dropped.w, Failed)
    else
      var got := GetObject(env, dropped.w, l.rec.spec);
      match got.reply
      case Failed => got
      case NotFound => Call(got.w, Done)
      case Done =>
        var deleted := DeleteObject(env, got.w, l.rec.spec);
        Call(deleted.w, if deleted.reply == Done then Done else Failed)
  }

  /** Outcome of the drift test; `Differs` carries the object to be stored. */
  datatype Verdict = Missing | Broken | Same | Differs(body: Json)

  datatype Comparison = Comparison(w: World, status: Status, verdict: Verdict)

  /** What the server would store if the manifest were merged into the deployed object. */
  function Desired(env: Env, deployed: Json, manifest: Json): Json {
    env.norm(Merge(deployed, manifest))
  }

  function Compare(env: Env, w: World, status: Status, m: Manifest): Comparison {
    var got := GetObject(env, w, m.key);
    match got.reply
    case NotFound => Comparison(got.w, OutOfSync, Missing)
    case Failed => Comparison(got.w, status, Broken)
    case Done =>
      var dry := DryRunUpdate(env, got.w, m.key);
      if dry.reply != Done then Comparison(dry.w, status, Broken)
      else
        var deployed := got.w.target[m.key];
        var desired := Desired(env, deployed, m.body);
        if env.render(deployed) != env.render(desired) then Comparison(dry.w, OutOfSync, Differs(desired))
        else Comparison(dry.w, status, Same)
  }

  // ---------- the loop over manifest files and their objects ----------

  /** The work of the main loop in order: fetching each file, then handling its objects. */
  datatype Item = File | Object(m: Manifest)

  function ObjectItems(ms: seq<Manifest>): seq<Item> {
    seq(|ms|, i requires 0 <= i < |ms| => Object(ms[i]))
  }

  function Items(files: seq<seq<Manifest>>): seq<Item> {
    if files == [] then [] else [File] + ObjectItems(files[0]) + Items(files[1..])
  }

  datatype Pass = Pass(w: World, status: Status, updated: set<string>)

  datatype Outcome = Outcome(p: Pass, ok: bool)

  function Apply(env: Env, w: World, c: Claim, body: Json, found: bool): Call {
    if found then UpdateObject(env, w, c.key, body) else CreateObject(env, w, c, body)
  }

  function ObjectStep(env: Env, job: Job, p: Pass, m: Manifest): Outcome {
    var c := Claim(job.app, m.key);
    var recorded := UpdateRecord(env, p.w, c);
    if recorded.reply != Done then Outcome(p.(w := recorded.w), false)
    else
      var noted := p.updated + {RecordName(job.app, m.key)};
      var cmp := Compare(env, recorded.w, p.status, m);
      var q := Pass(cmp.w, cmp.status, noted);
      if cmp.verdict == Broken then Outcome(q, false)
      else if cmp.verdict == Same || !Applies(job) then Outcome(q, true)
      else
        var body := if cmp.verdict == Missing then m.body else cmp.verdict.body;
        var applied := Apply(env, cmp.w, c, body, cmp.verdict != Missing);
        Outcome(q.(w := applied.w), applied.reply == Done)
  }

  function ItemStep(env: Env, job: Job, p: Pass, item: Item): Outcome {
    match item
    case File => var got := Fetch(env, p.w); Outcome(p.(w := got.w), got.reply == Done)
    case Object(m) => ObjectStep(env, job, p, m)
  }

  function RunItems(env: Env, job: Job, p: Pass, items: seq<Item>): Outcome
    decreases items
  {
    if items == [] then Outcome(p, true)
    else
      var o := ItemStep(env, job, p, items[0]);
      if o.ok then RunItems(env, job, o.p, items[1..]) else o
  }

  // ---------- pruning and the whole pass ----------

  /** Clear every listed record whose name is not to be kept. */
  function Prune(env: Env, w: World, listing: seq<Listed>, keep: set<string>): Call
    decreases listing
  {
    if listing == [] then Call(w, Done)
    else if listing[0].rk.name in keep then Prune(env, w, listing[1..], keep)
    else
      var c := ClearResource(env, w, listing[0]);
      if c.reply == Done then Prune(env, c.w, listing[1..], keep) else c
  }

  function SetTarget(env: Env, job: Job, w: World): Call {
    if job.remote then Fetch(env, w) else Call(w, Done)
  }

  /** Before the loop: the target client, the list of manifest files, the list of records. */
  function Prepare(env: Env, job: Job, w: World): Call {
    var c0 := SetTarget(env, job, w);
    if c0.reply != Done then c0
    else
      var c1 := Fetch(env, c0.w);
      if c1.reply != Done then c1 else Fetch(env, c1.w)
  }

  function Sync(env: Env, job: Job, w: World, status: Status, files: seq<seq<Manifest>>,
                listing: seq<Listed>): Outcome {
    var c := Prepare(env, job, w);
    if c.reply != Done then Outcome(Pass(c.w, status, {}), false)
    else
      var o := RunItems(env, job, Pass(c.w, status, {}), Items(files));
      if !o.ok then o
      else
        var pruned := Prune(env, o.p.w, listing, o.p.updated);
        if pruned.reply != Done then Outcome(o.p.(w := pruned.w), false)
        else Outcome(o.p.(w := pruned.w, status := if o.p.status == Unknown then Synced else o.p.status), true)
  }

  /** `CheckSync` resets the status before it syncs. */
  function CheckSync(env: Env, job: Job, w: World, files: seq<seq<Manifest>>, listing: seq<Listed>): Outcome {
    Sync(env, job, w, Unknown, files, listing)
  }

  function Clear(env: Env, job: Job, w: World, listing: seq<Listed>): Call {
    var c0 := SetTarget(env, job, w);
    if c0.reply != Done then c0
    else
      var c1 := Fetch(env, c0.w);
      if c1.reply != Done then c1 else Prune(env, c1.w, listing, {})
  }

  // ---------- vocabulary for what a pass is about ----------

  function Manifests(files: seq<seq<Manifest>>): seq<Manifest> {
    if files == [] then [] else files[0] + Manifests(files[1..])
  }

  /** The objects among the items of a loop. */
  function Objects(items: seq<Item>): seq<Manifest> {
    if items == [] then []
    else (if items[0].Object? then [items[0].m] else []) + Objects(items[1..])
  }

  lemma {:induction false} ObjectsOfConcat(a: seq<Item>, b: seq<Item>)
    ensures Objects(a + b) == Objects(a) + Objects(b)
  {
    if a == [] {
      assert a + b == b;
    } else {
      ConcatTail(a, b);
      ObjectsOfConcat(a[1..], b);
      var head := if a[0].Object? then [a[0].m] else [];
      ConcatAssociates(head, Objects(a[1..]), Objects(b));
    }
  }

  lemma {:induction false} ObjectsOfObjectItems(ms: seq<Manifest>)
    ensures Objects(ObjectItems(ms)) == ms
  {
    if ms != [] {
      assert ObjectItems(ms)[1..] == ObjectItems(ms[1..]);
      ObjectsOfObjectItems(ms[1..]);
    }
  }

  lemma {:induction false} ObjectsOfItems(files: seq<seq<Manifest>>)
    ensures Objects(Items(files)) == Manifests(files)
  {
    if files != [] {
      ObjectsOfObjectItems(files[0]);
      ObjectsOfItems(files[1..]);
      ObjectsOfConcat([File] + ObjectItems(files[0]), Items(files[1..]));
      ObjectsOfConcat([File], ObjectItems(files[0]));
    }
  }

  /** The manifests lay claim to nothing outside `claims`. */
  ghost predicate Within(app: App, ms: seq<Manifest>, claims: set<Claim>) {
    forall m | m in ms :: Claim(app, m.key) in claims
  }
}
