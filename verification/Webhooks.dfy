/** Removing an application's webhooks from the git server. */
module Webhooks {
  import opened Collections
  import opened Cluster
  import opened PlainYaml

  datatype Hook = Hook(id: int, url: string)

  /** Calls are counted on the world's clock; the hooks live on the git server. */
  datatype HookRun = HookRun(w: World, hooks: seq<Hook>, ok: bool)

  function RemoveId(hooks: seq<Hook>, id: int): seq<Hook> {
    if hooks == [] then []
    else (if hooks[0].id == id then [] else [hooks[0]]) + RemoveId(hooks[1..], id)
  }

  /** The hooks at other addresses, in order. */
  function Elsewhere(hooks: seq<Hook>, addr: string): seq<Hook> {
    if hooks == [] then []
    else (if hooks[0].url == addr then [] else [hooks[0]]) + Elsewhere(hooks[1..], addr)
  }

  function DeleteListed(env: Env, w: World, hooks: seq<Hook>, listed: seq<Hook>, addr: string): HookRun
    decreases listed
  {
    if listed == [] then HookRun(w, hooks, true)
    else if listed[0].url != addr then DeleteListed(env, w, hooks, listed[1..], addr)
    else
      var c := Fetch(env, w);
      if c.reply != Done then HookRun(c.w, hooks, false)
      else DeleteListed(env, c.w, RemoveId(hooks, listed[0].id), listed[1..], addr)
  }

  /** Without a token there is nothing to do; otherwise a client, the list, the deletions. */
  function ClearHooks(env: Env, w: World, hooks: seq<Hook>, token: bool, addr: string): HookRun {
    if !token then HookRun(w, hooks, true)
    else
      var c0 := Fetch(env, w);
      if c0.reply != Done then HookRun(c0.w, hooks, false)
      else
        var c1 := Fetch(env, c0.w);
        if c1.reply != Done then HookRun(c1.w, hooks, false)
        else DeleteListed(env, c1.w, hooks, hooks, addr)
  }

  predicate DistinctIds(hooks: seq<Hook>) {
    forall i, j | 0 <= i < j < |hooks| :: hooks[i].id != hooks[j].id
  }

  lemma {:induction false} RemoveAbsent(hooks: seq<Hook>, id: int)
    requires forall h | h in hooks :: h.id != id
    ensures RemoveId(hooks, id) == hooks
  {
    if hooks != [] {
      assert hooks[0] in hooks;
      RemoveAbsent(hooks[1..], id);
    }
  }

  lemma {:induction false} RemovePassesOver(kept: seq<Hook>, rest: seq<Hook>, id: int)
    requires forall h | h in kept :: h.id != id
    ensures RemoveId(kept + rest, id) == kept + RemoveId(rest, id)
  {
    if kept == [] {
      assert kept + rest == rest;
    } else {
      assert (kept + rest)[1..] == kept[1..] + rest;
      assert kept[0] in kept;
      RemovePassesOver(kept[1..], rest, id);
    }
  }

  lemma {:induction false} ElsewhereOfConcat(a: seq<Hook>, b: seq<Hook>, addr: string)
    ensures Elsewhere(a + b, addr) == Elsewhere(a, addr) + Elsewhere(b, addr)
  {
    if a == [] {
      assert a + b == b;
    } else {
      ConcatTail(a, b);
      ElsewhereOfConcat(a[1..], b, addr);
    }
  }

  lemma {:induction false} ElsewhereMeans(hooks: seq<Hook>, addr: string)
    ensures forall h :: h in Elsewhere(hooks, addr) <==> h in hooks && h.url != addr
  {
    if hooks != [] {
      ElsewhereMeans(hooks[1..], addr);
    }
  }

  lemma StepOver(kept: seq<Hook>, listed: seq<Hook>)
    requires listed != [] && DistinctIds(kept + listed)
    ensures kept + listed == (kept + [listed[0]]) + listed[1..]
    ensures DistinctIds(kept + listed[1..])
  {
    var all, rest := kept + listed, listed[1..];
    forall i, j | 0 <= i < j < |kept + rest|
      ensures (kept + rest)[i].id != (kept + rest)[j].id
    {
      var i', j' := if i < |kept| then i else i + 1, if j < |kept| then j else j + 1;
      assert (kept + rest)[i] == all[i'] && (kept + rest)[j] == all[j'];
    }
  }

  /** The entry at the cursor has an id of its own. */
  lemma OwnId(kept: seq<Hook>, listed: seq<Hook>, k: Hook)
    requires listed != [] && DistinctIds(kept + listed)
    requires k in kept || k in listed[1..]
    ensures k.id != listed[0].id
  {
    var all := kept + listed;
    assert all[|kept|] == listed[0];
    if k in kept {
      var i :| 0 <= i < |kept| && kept[i] == k;
      assert all[i] == k;
    } else {
      var i :| 0 <= i < |listed[1..]| && listed[1..][i] == k;
      assert all[|kept| + 1 + i] == k;
    }
  }

  lemma RemoveListed(kept: seq<Hook>, listed: seq<Hook>)
    requires listed != [] && DistinctIds(kept + listed)
    ensures RemoveId(kept + listed, listed[0].id) == kept + listed[1..]
  {
    forall k | k in kept || k in listed[1..]
      ensures k.id != listed[0].id
    {
      OwnId(kept, listed, k);
    }
    RemovePassesOver(kept, listed, listed[0].id);
    RemoveAbsent(listed[1..], listed[0].id);
    assert RemoveId(listed, listed[0].id) == listed[1..];
  }

  lemma {:induction false} DeleteListedStops(env: Env, w: World, hooks: seq<Hook>, listed: seq<Hook>, addr: string)
    ensures var r := DeleteListed(env, w, hooks, listed, addr);
            && StopsAtFault(env, w.clock, r.w.clock, r.ok)
            && r.w == w.(clock := r.w.clock)
    decreases listed
  {
    if listed != [] {
      if listed[0].url != addr {
        DeleteListedStops(env, w, hooks, listed[1..], addr);
      } else {
        var c := Fetch(env, w);
        if c.reply == Done {
          DeleteListedStops(env, c.w, RemoveId(hooks, listed[0].id), listed[1..], addr);
          var r := DeleteListed(env, c.w, RemoveId(hooks, listed[0].id), listed[1..], addr);
          FetchThenStops(env, w, r.w.clock, r.ok);
        }
      }
    }
  }

  /** With the hooks before the cursor already dealt with, the deletions that remain turn
      `kept + listed` into `kept` and what of `listed` is elsewhere. */
  lemma {:induction false} DeleteListedDeletes(env: Env, w: World, kept: seq<Hook>, listed: seq<Hook>, addr: string)
    requires DistinctIds(kept + listed)
    ensures var r := DeleteListed(env, w, kept + listed, listed, addr);
            && Elsewhere(r.hooks, addr) == Elsewhere(kept + listed, addr)
            && (r.ok ==> r.hooks == kept + Elsewhere(listed, addr))
            && (r.ok ==> r.w.clock + |Elsewhere(listed, addr)| == w.clock + |listed|)
            && DistinctIds(r.hooks)
    decreases listed
  {
    if listed == [] {
      assert kept + listed == kept;
    } else {
      var h, rest := listed[0], listed[1..];
      StepOver(kept, listed);
      if h.url != addr {
        DeleteListedDeletes(env, w, kept + [h], rest, addr);
        ConcatAssociates(kept, [h], Elsewhere(rest, addr));
      } else {
        var c := Fetch(env, w);
        if c.reply == Done {
          RemoveListed(kept, listed);
          DeleteListedDeletes(env, c.w, kept, rest, addr);
          ElsewhereOfConcat(kept, listed, addr);
          ElsewhereOfConcat(kept, rest, addr);
        }
      }
    }
  }

  lemma FetchThenStops(env: Env, w: World, end: nat, ok: bool)
    requires Fetch(env, w).reply == Done && StopsAtFault(env, Fetch(env, w).w.clock, end, ok)
    ensures StopsAtFault(env, w.clock, end, ok)
  {
  }

  /** Whatever fails, hooks at other addresses stay as they are; and if nothing fails they are
      all that is left. That takes a call for the client, one for the list, and one for each hook
      that goes; without a token nothing is asked. */
  lemma ClearHooksClears(env: Env, w: World, hooks: seq<Hook>, token: bool, addr: string)
    requires DistinctIds(hooks)
    ensures var r := ClearHooks(env, w, hooks, token, addr);
            && StopsAtFault(env, w.clock, r.w.clock, r.ok)
            && r.w == w.(clock := r.w.clock)
            && Elsewhere(r.hooks, addr) == Elsewhere(hooks, addr)
            && (r.ok ==> r.hooks == if token then Elsewhere(hooks, addr) else hooks)
            && (r.ok ==> r.w.clock == w.clock + (if token then 2 + |hooks| - |Elsewhere(hooks, addr)| else 0))
            && DistinctIds(r.hooks)
  {
    if token {
      var c0 := Fetch(env, w);
      if c0.reply == Done {
        var c1 := Fetch(env, c0.w);
        if c1.reply == Done {
          assert [] + hooks == hooks;
          DeleteListedDeletes(env, c1.w, [], hooks, addr);
          DeleteListedStops(env, c1.w, hooks, hooks, addr);
          var r := DeleteListed(env, c1.w, hooks, hooks, addr);
          FetchThenStops(env, c0.w, r.w.clock, r.ok);
          FetchThenStops(env, w, r.w.clock, r.ok);
        }
      }
    }
  }

  // ---------- as it runs ----------

  /** The webhooks of a repository, reached by calls on the same clock as the clusters. */
  class GitServer {
    const api: Api
    var hooks: seq<Hook>

    constructor (api: Api, hooks: seq<Hook>)
      ensures this.api == api && this.hooks == hooks
    {
      this.api, this.hooks := api, hooks;
    }

    method DeleteWebhook(id: int) returns (r: Reply)
      modifies api, this`hooks
      ensures Call(api.W(), r) == Fetch(api.env, old(api.W()))
      ensures hooks == if r == Done then RemoveId(old(hooks), id) else old(hooks)
    {
      r := api.Fetch();
      if r == Done {
        hooks := RemoveId(hooks, id);
      }
    }

    method ClearWebhook(token: bool, addr: string) returns (ok: bool)
      modifies api, this`hooks
      ensures HookRun(api.W(), hooks, ok) == ClearHooks(api.env, old(api.W()), old(hooks), token, addr)
    {
      if token {
        var r := api.Fetch();  // the git client, with its token
        if r != Done {
          return false;
        }
        r := api.Fetch();  // the list of webhooks
        if r != Done {
          return false;
        }
        var listed := hooks;
        var i := 0;
        while i < |listed|
          invariant 0 <= i <= |listed|
          invariant ClearHooks(api.env, old(api.W()), old(hooks), token, addr)
                 == DeleteListed(api.env, api.W(), hooks, listed[i..], addr)
        {
          if listed[i].url == addr {
            r := DeleteWebhook(listed[i].id);
            if r != Done {
              return false;
            }
          }
          i := i + 1;
        }
      }
      ok := true;
    }
  }
}
