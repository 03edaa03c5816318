/** The two clusters as the operator's API calls see them.
    Every call may fail; a failed call has no effect beyond having been made. */
module Cluster {
  import opened Json
  import opened Ledger

  /** What a call persisted. */
  datatype Write =
    | RecordCreated(rk: RecKey)
    | RecordDeleted(rk: RecKey)
    | ObjectCreated(key: ObjKey)
    | ObjectUpdated(key: ObjKey)
    | ObjectDeleted(key: ObjKey)

  /** `created` remembers which application created an object that is still live;
      `log` lists what has been persisted; `clock` counts the calls made. */
  datatype World = World(
    ledger: map<RecKey, Record>,
    target: map<ObjKey, Json>,
    created: set<Claim>,
    log: seq<Write>,
    clock: nat)

  /** What is given from outside: which calls fail, how the API server normalises what it stores
      (defaulting, server-managed fields), the text an object prints as, and which applications
      are deployed from a Helm chart. */
  datatype Env = Env(fails: nat -> bool, norm: Json -> Json, render: Json -> string, charts: App -> bool)

  datatype Reply = Done | NotFound | Failed

  datatype Call = Call(w: World, reply: Reply)

  function Tick(w: World): World {
    w.(clock := w.clock + 1)
  }

  /** A call that reads something outside the two clusters (git, a kubeconfig secret). */
  function Fetch(env: Env, w: World): Call {
    Call(Tick(w), if env.fails(w.clock) then Failed else Done)
  }

  function GetRecord(env: Env, w: World, rk: RecKey): Call {
    Call(Tick(w), if env.fails(w.clock) then Failed else if rk in w.ledger then Done else NotFound)
  }

  function CreateRecord(env: Env, w: World, rk: RecKey, rec: Record): Call {
    if env.fails(w.clock) || rk in w.ledger then Call(Tick(w), Failed)
    else Call(Tick(w.(ledger := w.ledger[rk := rec], log := w.log + [RecordCreated(rk)])), Done)
  }

  function DeleteRecord(env: Env, w: World, rk: RecKey): Call {
    if env.fails(w.clock) then Call(Tick(w), Failed)
    else if rk !in w.ledger then Call(Tick(w), NotFound)
    else Call(Tick(w.(ledger := w.ledger - {rk}, log := w.log + [RecordDeleted(rk)])), Done)
  }

  function GetObject(env: Env, w: World, key: ObjKey): Call {
    Call(Tick(w), if env.fails(w.clock) then Failed else if key in w.target then Done else NotFound)
  }

  function CreateObject(env: Env, w: World, c: Claim, body: Json): Call {
    if env.fails(w.clock) || c.key in w.target then Call(Tick(w), Failed)
    else Call(Tick(w.(target := w.target[c.key := env.norm(body)], created := w.created + {c},
                      log := w.log + [ObjectCreated(c.key)])), Done)
  }

  /** A dry run is checked like an update and answers with what would have been stored. */
  function DryRunUpdate(env: Env, w: World, key: ObjKey): Call {
    Call(Tick(w), if env.fails(w.clock) then Failed else if key in w.target then Done else NotFound)
  }

  function UpdateObject(env: Env, w: World, key: ObjKey, body: Json): Call {
    if env.fails(w.clock) then Call(Tick(w), Failed)
    else if key !in w.target then Call(Tick(w), NotFound)
    else Call(Tick(w.(target := w.target[key := env.norm(body)], log := w.log + [ObjectUpdated(key)])), Done)
  }

  function DeleteObject(env: Env, w: World, key: ObjKey): Call {
    if env.fails(w.clock) then Call(Tick(w), Failed)
    else if key !in w.target then Call(Tick(w), NotFound)
    else Call(Tick(w.(target := w.target - {key}, created := (set c | c in w.created && c.key != key),
                      log := w.log + [ObjectDeleted(key)])), Done)
  }

  /** What the entry says is what has changed from `w` to `v`, and all that has. */
  predicate Describes(e: Write, w: World, v: World) {
    match e
    case RecordCreated(rk) =>
      rk !in w.ledger && rk in v.ledger && v.ledger - {rk} == w.ledger && v.target == w.target && v.created == w.created
    case RecordDeleted(rk) =>
      rk in w.ledger && v.ledger == w.ledger - {rk} && v.target == w.target && v.created == w.created
    case ObjectCreated(key) =>
      key !in w.target && key in v.target && v.target - {key} == w.target && v.ledger == w.ledger
    case ObjectUpdated(key) =>
      && key in w.target && key in v.target && v.target - {key} == w.target - {key}
      && v.ledger == w.ledger && v.created == w.created
    case ObjectDeleted(key) =>
      key in w.target && v.target == w.target - {key} && v.ledger == w.ledger
  }

  /** The call has been made; it has persisted something exactly if it was a write that is done, and
      then the log says what. */
  predicate Logged(w: World, c: Call, writes: bool) {
    && c.w.clock == w.clock + 1
    && (if writes && c.reply == Done then |c.w.log| == |w.log| + 1 && w.log <= c.w.log
                                          && Describes(c.w.log[|w.log|], w, c.w)
        else c.w == Tick(w))
  }

  /** The answer to a call that needs what it names to be there. */
  function Answer(env: Env, w: World, there: bool): Reply {
    if env.fails(w.clock) then Failed else if there then Done else NotFound
  }

  lemma CallsAreLogged(env: Env, w: World, rk: RecKey, rec: Record, c: Claim, body: Json)
    ensures Logged(w, Fetch(env, w), false)
    ensures Logged(w, GetRecord(env, w, rk), false)
    ensures Logged(w, CreateRecord(env, w, rk, rec), true)
    ensures Logged(w, DeleteRecord(env, w, rk), true)
    ensures Logged(w, GetObject(env, w, c.key), false)
    ensures Logged(w, DryRunUpdate(env, w, c.key), false)
    ensures Logged(w, CreateObject(env, w, c, body), true)
    ensures Logged(w, UpdateObject(env, w, c.key, body), true)
    ensures Logged(w, DeleteObject(env, w, c.key), true)
    ensures GetRecord(env, w, rk).reply == Answer(env, w, rk in w.ledger)
    ensures DeleteRecord(env, w, rk).reply == Answer(env, w, rk in w.ledger)
    ensures GetObject(env, w, c.key).reply == Answer(env, w, c.key in w.target)
    ensures DryRunUpdate(env, w, c.key).reply == Answer(env, w, c.key in w.target)
    ensures UpdateObject(env, w, c.key, body).reply == Answer(env, w, c.key in w.target)
    ensures DeleteObject(env, w, c.key).reply == Answer(env, w, c.key in w.target)
    ensures CreateRecord(env, w, rk, rec).reply == (if env.fails(w.clock) || rk in w.ledger then Failed else Done)
    ensures CreateObject(env, w, c, body).reply == (if env.fails(w.clock) || c.key in w.target then Failed else Done)
  {
    if rk !in w.ledger {
      assert w.ledger[rk := rec] - {rk} == w.ledger;
    }
    if c.key !in w.target {
      assert w.target[c.key := env.norm(body)] - {c.key} == w.target;
    } else {
      assert w.target[c.key := env.norm(body)] - {c.key} == w.target - {c.key};
    }
  }

  /** One entry of a record listing: the record as it was when listed. */
  datatype Listed = Listed(rk: RecKey, rec: Record)

  /** A listing by label spans all namespaces, holds every match once, in any order. */
  ghost predicate IsListing(ledger: map<RecKey, Record>, labelValue: string, listing: seq<Listed>) {
    && (forall i | 0 <= i < |listing| :: Holds(ledger, labelValue, listing[i]))
    && (forall i, j | 0 <= i < j < |listing| :: listing[i].rk != listing[j].rk)
    && (forall rk | rk in ledger && ledger[rk].labelValue == labelValue :: Listed(rk, ledger[rk]) in listing)
  }

  ghost predicate Holds(ledger: map<RecKey, Record>, labelValue: string, l: Listed) {
    l.rk in ledger && ledger[l.rk] == l.rec && l.rec.labelValue == labelValue
  }

  /** No call in the window failed. */
  ghost predicate Quiet(env: Env, lo: nat, hi: nat) {
    forall i | lo <= i < hi :: !env.fails(i)
  }

  /** An operation that reports success met no failing call; one that reports an error
      stopped at the first failing call it met. */
  ghost predicate StopsAtFault(env: Env, lo: nat, hi: nat, ok: bool) {
    && lo <= hi
    && (if ok then Quiet(env, lo, hi) else lo < hi && env.fails(hi - 1) && Quiet(env, lo, hi - 1))
  }

  /** How many calls of a window failed. */
  function Faults(env: Env, lo: nat, hi: nat): nat
    requires lo <= hi
    decreases hi
  {
    if lo == hi then 0 else Faults(env, lo, hi - 1) + (if env.fails(hi - 1) then 1 else 0)
  }
}
