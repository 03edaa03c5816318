/** Taking an application down: the reconciler stops its routine, clears its resources,
    removes its webhooks, for a Helm application its local clone, and only then its finalizer,
    while the routines of the other applications keep syncing in between. Syncs and clears are
    atomic here. */
module Finalisation {
  import opened Collections
  import opened Ledger
  import opened Cluster
  import opened Reconcile
  import opened Safety
  import opened Runs
  import opened Webhooks
  import opened Calls
  import H = Helm
  import R = Routines

  /** How far `handleFinalizer` has come with the application it has in hand. `recorded` is
      what the application had on record as its clearing began; `addr` is its webhook
      address, used if it has a token, and `hooks` the webhooks listed. */
  datatype Phase =
    | Outside
    | Cleared(app: App, recorded: set<ObjKey>)
    | Unhooked(app: App, recorded: set<ObjKey>, token: bool, addr: string, hooks: seq<Hook>)
    | Swept(app: App, recorded: set<ObjKey>, token: bool, addr: string, hooks: seq<Hook>)
    | Finalized(app: App, recorded: set<ObjKey>, token: bool, addr: string, hooks: seq<Hook>)

  /** `clones` are the local clones, each in a directory named after its application's label. */
  datatype Sys = Sys(r: R.State, w: World, hooks: seq<Hook>, clones: set<string>, phase: Phase)

  datatype Act =
    | Move(a: R.Action)                          // a step of the routine protocol that syncs nothing
    | PeriodicSync(ch: R.Chan, s: Step)          // a routine finishes a periodic check
    | OtherSync(s: Step)                         // a sync from the reconciler or a webhook
    | ClearApp(s: Step)
    | ClearAppHooks(token: bool, addr: string)
    | ClearGitRepo
    | RemoveFinalizer
    | Depart                                     // `handleFinalizer` returns
    | Restart                                    // the process ends, at any point, and starts anew

  /** The application in finalisation, once its `deleteSyncFlag` has returned. */
  predicate InHand(s: Sys, app: App) {
    s.r.pc.Returned? && s.r.pc.app == app
  }

  /** A Helm sync finds the clone that is there. */
  predicate FindsClone(clones: set<string>, step: Step) {
    step.HelmSyncStep? ==>
      && (step.clone == H.Cloned ==> Label(step.job.app) in clones)
      && (step.clone == H.NoClone ==> Label(step.job.app) !in clones)
  }

  ghost predicate CanSync(env: Env, s: Sys, claims: set<Claim>, step: Step) {
    IsSync(step) && Valid(env, s.w, claims, step) && FindsClone(s.clones, step)
  }

  ghost predicate Enabled(env: Env, s: Sys, claims: set<Claim>, act: Act) {
    match act
    case Move(a) => !a.CheckDone? && !a.Leave? && R.Enabled(s.r, a)
    case PeriodicSync(ch, step) =>
      && R.Enabled(s.r, R.CheckDone(ch))
      && step.job.app == s.r.routines[ch].app && CanSync(env, s, claims, step)
    case OtherSync(step) => !InHand(s, step.job.app) && CanSync(env, s, claims, step)
    case ClearApp(step) =>
      && InHand(s, step.job.app) && s.phase == Outside
      && !IsSync(step) && Valid(env, s.w, claims, step)
    case ClearAppHooks(_, _) => s.phase.Cleared?
    case ClearGitRepo => s.phase.Unhooked?
    case RemoveFinalizer => s.phase.Swept?
    case Depart => s.phase.Finalized?
    case Restart => true
  }

  function Recorded(w: World, app: App): set<ObjKey> {
    set rk | rk in w.ledger && w.ledger[rk].labelValue == Label(app) :: w.ledger[rk].spec
  }

  /** An error anywhere sends the reconciler back, finalizer in place, to try again. */
  function GiveUp(s: Sys): Sys {
    s.(r := s.r.(pc := R.Idle), phase := Outside)
  }

  /** A Helm sync that finds no clone makes one, unless that very call fails. */
  function ClonesAfter(env: Env, s: Sys, step: Step): set<string> {
    if step.HelmSyncStep? && step.clone == H.NoClone && !env.fails(s.w.clock) then s.clones + {Label(step.job.app)}
    else s.clones
  }

  /** Routines and reconciler start anew; clusters, webhooks and clones are as they were. */
  function Restarted(s: Sys): Sys {
    s.(r := R.INIT, phase := Outside)
  }

  predicate Panics(env: Env, w: World, step: Step) {
    step.HelmSyncStep? && H.HelmSync(env, step.job, w, Unknown, step.clone, step.docs, step.listing).end == H.Panic
  }

  function WithSync(env: Env, s: Sys, step: Step): Sys {
    s.(w := Do(env, s.w, step).w, clones := ClonesAfter(env, s, step))
  }

  /** A Helm sync whose install fails takes the whole process down. */
  function AfterSync(env: Env, s: Sys, step: Step): Sys {
    if Panics(env, s.w, step) then Restarted(WithSync(env, s, step)) else WithSync(env, s, step)
  }

  /** Only a Helm application has a clone to remove. */
  function AfterSweep(env: Env, s: Sys): Sys
    requires s.phase.Unhooked?
  {
    var p := s.phase;
    var swept := Swept(p.app, p.recorded, p.token, p.addr, p.hooks);
    if !env.charts(p.app) then s.(phase := swept)
    else
      var c := Fetch(env, s.w);
      if c.reply == Done then s.(w := c.w, clones := s.clones - {Label(p.app)}, phase := swept)
      else GiveUp(s.(w := c.w))
  }

  function Next(env: Env, claims: set<Claim>, s: Sys, act: Act): Sys
    requires Enabled(env, s, claims, act)
  {
    match act
    case Move(a) => s.(r := R.Step(s.r, a))
    case PeriodicSync(ch, step) => AfterSync(env, s.(r := R.Step(s.r, R.CheckDone(ch))), step)
    case OtherSync(step) => AfterSync(env, s, step)
    case ClearApp(step) =>
      var done := Do(env, s.w, step);
      var app := step.job.app;
      if done.ok then s.(w := done.w, phase := Cleared(app, Recorded(s.w, app))) else GiveUp(s.(w := done.w))
    case ClearAppHooks(token, addr) =>
      var done := ClearHooks(env, s.w, s.hooks, token, addr);
      var p := s.phase;
      if done.ok then s.(w := done.w, hooks := done.hooks, phase := Unhooked(p.app, p.recorded, token, addr, s.hooks))
      else GiveUp(s.(w := done.w, hooks := done.hooks))
    case ClearGitRepo => AfterSweep(env, s)
    case RemoveFinalizer =>
      var c := Fetch(env, s.w);
      var p := s.phase;
      if c.reply == Done then s.(w := c.w, phase := Finalized(p.app, p.recorded, p.token, p.addr, p.hooks))
      else GiveUp(s.(w := c.w))
    case Depart => GiveUp(s)
    case Restart => Restarted(s)
  }

  /** Another application has created the object and is remembered for it. */
  ghost predicate CreatedByOther(w: World, app: App, k: ObjKey) {
    exists c :: c in w.created && c.key == k && c.app != app
  }

  /** The application has no record left; and unless its objects are left to Helm, of what it had
      on record nothing is live, except what another application has created since. */
  ghost predicate Clean(env: Env, w: World, app: App, recorded: set<ObjKey>) {
    && (forall rk | rk in w.ledger :: w.ledger[rk].labelValue != Label(app))
    && (!env.charts(app) ==> forall k | k in recorded && k in w.target :: CreatedByOther(w, app, k))
  }

  ghost predicate SysInv(env: Env, s: Sys, claims: set<Claim>) {
    && R.Inv(s.r)
    && RunInv(env, s.w, claims)
    && DistinctIds(s.hooks)
    && (s.phase != Outside ==>
          && InHand(s, s.phase.app) && Clean(env, s.w, s.phase.app, s.phase.recorded)
          && Claimant(s.phase.app, claims))
    && (s.phase.Unhooked? || s.phase.Swept? || s.phase.Finalized? ==>
          s.hooks == if s.phase.token then Elsewhere(s.phase.hooks, s.phase.addr) else s.phase.hooks)
    && (s.phase.Swept? || s.phase.Finalized? ==>
          env.charts(s.phase.app) ==> Label(s.phase.app) !in s.clones)
  }

  lemma OthersKeepClean(env: Env, w: World, step: Step, app: App, recorded: set<ObjKey>, claims: set<Claim>)
    requires Separate(claims) && RunInv(env, w, claims) && Valid(env, w, claims, step)
    requires Clean(env, w, app, recorded) && Claimant(app, claims) && step.job.app != app
    ensures Clean(env, Do(env, w, step).w, app, recorded)
    ensures Label(step.job.app) != Label(app)
  {
    var v := Do(env, w, step).w;
    DoKeeps(env, w, step, claims);
    var c :| c in claims && c.app == app;
    var d :| d in claims && d.app == step.job.app;
    assert Label(c.app) != Label(d.app);
    forall k | !env.charts(app) && k in recorded && k in v.target
      ensures CreatedByOther(v, app, k)
    {
      if Claim(step.job.app, k) !in v.created {
        assert Kept(w, v, k);
        var e :| e in w.created && e.key == k && e.app != app;
        assert e in v.created;
      }
    }
  }

  lemma ClearMakesClean(env: Env, w: World, step: Step, claims: set<Claim>)
    requires Separate(claims) && RunInv(env, w, claims) && Valid(env, w, claims, step) && !IsSync(step)
    ensures var r := Do(env, w, step);
            r.ok ==> Clean(env, r.w, step.job.app, Recorded(w, step.job.app))
  {
    if step.ClearStep? {
      ClearKeeps(env, step.job, w, step.listing, claims);
    } else {
      H.ClearClears(env, w, step.job.app, step.listing, claims);
    }
    assert Rks(step.job.app, []) == {};
  }

  lemma WithSyncKeeps(env: Env, s: Sys, step: Step, claims: set<Claim>)
    requires Separate(claims) && SysInv(env, s, claims) && Valid(env, s.w, claims, step)
    requires s.phase != Outside ==> step.job.app != s.phase.app
    ensures SysInv(env, WithSync(env, s, step), claims)
  {
    DoKeeps(env, s.w, step, claims);
    if s.phase != Outside {
      OthersKeepClean(env, s.w, step, s.phase.app, s.phase.recorded, claims);
    }
  }

  lemma RestartKeeps(env: Env, s: Sys, claims: set<Claim>)
    requires SysInv(env, s, claims)
    ensures SysInv(env, Restarted(s), claims)
  {
  }

  /** A sync by an application that is not in hand. */
  lemma SyncKeepsPhase(env: Env, s: Sys, step: Step, claims: set<Claim>)
    requires Separate(claims) && SysInv(env, s, claims) && Valid(env, s.w, claims, step)
    requires s.phase != Outside ==> step.job.app != s.phase.app
    ensures SysInv(env, AfterSync(env, s, step), claims)
  {
    WithSyncKeeps(env, s, step, claims);
    RestartKeeps(env, WithSync(env, s, step), claims);
  }

  /** A step of the routine protocol keeps the rest as it is, and the reconciler in its place
      if it is finalising. */
  lemma ProtocolKeeps(env: Env, s: Sys, a: R.Action, claims: set<Claim>)
    requires SysInv(env, s, claims) && R.Enabled(s.r, a) && !a.Leave?
    ensures SysInv(env, s.(r := R.Step(s.r, a)), claims)
    ensures s.phase != Outside && a.CheckDone? ==> s.r.routines[a.ch].app != s.phase.app
  {
    R.StepKeeps(s.r, a);
    if s.phase != Outside {
      R.GoneOnReturn(s.r);
      assert a.CheckDone? ==> R.Live(s.r, a.ch);
    }
  }

  lemma GiveUpKeeps(env: Env, s: Sys, claims: set<Claim>)
    requires R.Inv(s.r) && s.r.pc.Returned? && RunInv(env, s.w, claims) && DistinctIds(s.hooks)
    ensures SysInv(env, GiveUp(s), claims)
  {
    R.StepKeeps(s.r, R.Leave);
  }

  lemma ClearAppKeeps(env: Env, s: Sys, step: Step, claims: set<Claim>)
    requires Separate(claims) && SysInv(env, s, claims) && Enabled(env, s, claims, ClearApp(step))
    ensures SysInv(env, Next(env, claims, s, ClearApp(step)), claims)
  {
    var done := Do(env, s.w, step);
    DoKeeps(env, s.w, step, claims);
    ClearMakesClean(env, s.w, step, claims);
    GiveUpKeeps(env, s.(w := done.w), claims);
  }

  lemma ClearAppHooksKeeps(env: Env, s: Sys, token: bool, addr: string, claims: set<Claim>)
    requires SysInv(env, s, claims) && s.phase.Cleared?
    ensures SysInv(env, Next(env, claims, s, ClearAppHooks(token, addr)), claims)
  {
    var done := ClearHooks(env, s.w, s.hooks, token, addr);
    ClearHooksClears(env, s.w, s.hooks, token, addr);
    GiveUpKeeps(env, s.(w := done.w, hooks := done.hooks), claims);
  }

  lemma SweepKeeps(env: Env, s: Sys, claims: set<Claim>)
    requires SysInv(env, s, claims) && s.phase.Unhooked?
    ensures SysInv(env, AfterSweep(env, s), claims)
  {
    GiveUpKeeps(env, s.(w := Fetch(env, s.w).w), claims);
  }

  lemma RemoveFinalizerKeeps(env: Env, s: Sys, claims: set<Claim>)
    requires SysInv(env, s, claims) && s.phase.Swept?
    ensures SysInv(env, Next(env, claims, s, RemoveFinalizer), claims)
  {
    GiveUpKeeps(env, s.(w := Fetch(env, s.w).w), claims);
  }

  lemma NextKeeps(env: Env, claims: set<Claim>, s: Sys, act: Act)
    requires Separate(claims) && SysInv(env, s, claims) && Enabled(env, s, claims, act)
    ensures SysInv(env, Next(env, claims, s, act), claims)
  {
    match act
    case Move(a) => ProtocolKeeps(env, s, a, claims);
    case PeriodicSync(ch, step) =>
      ProtocolKeeps(env, s, R.CheckDone(ch), claims);
      SyncKeepsPhase(env, s.(r := R.Step(s.r, R.CheckDone(ch))), step, claims);
    case OtherSync(step) => SyncKeepsPhase(env, s, step, claims);
    case ClearApp(step) => ClearAppKeeps(env, s, step, claims);
    case ClearAppHooks(token, addr) => ClearAppHooksKeeps(env, s, token, addr, claims);
    case ClearGitRepo => SweepKeeps(env, s, claims);
    case RemoveFinalizer => RemoveFinalizerKeeps(env, s, claims);
    case Depart => GiveUpKeeps(env, s, claims);
    case Restart => RestartKeeps(env, s, claims);
  }

  // ---------- what the phases and clones stand for ----------

  /** When the clearing succeeds, `recorded` is what the application had on record just before; a
      failure sends the reconciler back. */
  lemma ClearedMeans(env: Env, claims: set<Claim>, s: Sys, step: Step)
    requires Enabled(env, s, claims, ClearApp(step))
    ensures var t := Next(env, claims, s, ClearApp(step));
            if Do(env, s.w, step).ok then
              && t.phase.Cleared? && t.phase.app == step.job.app
              && forall k :: k in t.phase.recorded
                   <==> exists rk :: rk in s.w.ledger && s.w.ledger[rk].labelValue == Label(step.job.app)
                                     && s.w.ledger[rk].spec == k
            else t.phase == Outside && t.r.pc == R.Idle
  {
    forall rk | rk in s.w.ledger && s.w.ledger[rk].labelValue == Label(step.job.app)
      ensures s.w.ledger[rk].spec in Recorded(s.w, step.job.app)
    {
    }
  }

  /** A Helm sync that succeeds leaves a clone, unless it could not tell whether there was one; no
      sync touches the clones of others, and none takes one away. */
  lemma ClonesMean(env: Env, s: Sys, claims: set<Claim>, step: Step)
    requires CanSync(env, s, claims, step)
    ensures var t := AfterSync(env, s, step);
            && s.clones <= t.clones <= s.clones + {Label(step.job.app)}
            && (step.SyncStep? ==> t.clones == s.clones)
            && (step.HelmSyncStep? && step.clone != H.Unreadable && Do(env, s.w, step).ok ==>
                  Label(step.job.app) in t.clones)
            && (step.HelmSyncStep? && env.fails(s.w.clock) ==> t.clones == s.clones)
  {
  }

  /** A sync that could tell has found a clone exactly if there is one. */
  lemma CloneFound(clones: set<string>, step: Step)
    requires step.HelmSyncStep? && step.clone != H.Unreadable
    ensures FindsClone(clones, step) <==> (step.clone == H.Cloned <==> Label(step.job.app) in clones)
  {
  }

  /** Where rendering is the first call to fail, or only the install fails, the process has started
      anew: no routine is live and no application in hand. Any other sync leaves both alone. */
  lemma PanicsMean(env: Env, s: Sys, claims: set<Claim>, step: Step)
    requires CanSync(env, s, claims, step)
    ensures var t := AfterSync(env, s, step);
            var panics := step.HelmSyncStep? &&
              (var lead := LeadCalls(step.clone);
               var bare := H.HelmSync(env, Bare(step.job), s.w, Unknown, step.clone, step.docs, step.listing);
               || (Quiet(env, s.w.clock, s.w.clock + lead - 1) && env.fails(s.w.clock + lead - 1))
               || ((step.job.autoSync || step.job.forced) && bare.end == H.Ok && env.fails(bare.w.clock)));
            if panics then t.phase == Outside && forall ch :: !R.Live(t.r, ch)
            else t.phase == s.phase && t.r == s.r
  {
    if step.HelmSyncStep? {
      HelmEnds(env, step.job, s.w, Unknown, step.clone, step.docs, step.listing);
    }
  }

  // ---------- finalisation left to itself ----------

  /** A sync changes the clusters as it does by itself, and a routine's check ends with it; steps of
      the protocol change nothing else. The process may restart at any point. */
  lemma OthersMean(env: Env, claims: set<Claim>, s: Sys, act: Act)
    requires act.Move? || act.PeriodicSync? || act.OtherSync? || act.Restart? || act.Depart?
    requires Enabled(env, s, claims, act)
    ensures var t := Next(env, claims, s, act);
            && Enabled(env, s, claims, Restart)
            && t.hooks == s.hooks
            && t.w == (if act.PeriodicSync? || act.OtherSync? then Do(env, s.w, act.s).w else s.w)
            && (act.Move? ==> t == s.(r := R.Step(s.r, act.a)))
            && (act.PeriodicSync? && !Panics(env, s.w, act.s) ==> t.r == R.Step(s.r, R.CheckDone(act.ch)))
            && (act.Depart? ==> t == s.(r := s.r.(pc := R.Idle), phase := Outside))
  {
  }

  /** The protocol's other steps may come at any time, and so may the end of any check that is
      running, and syncs of every application but the one in hand. */
  lemma OthersMayCome(env: Env, claims: set<Claim>, s: Sys, act: Act)
    requires match act
             case Move(a) => R.Enabled(s.r, a) && !(a.CheckDone? || a.Leave?)
             case PeriodicSync(ch, step) =>
               && R.Enabled(s.r, R.CheckDone(ch)) && step.job.app == s.r.routines[ch].app
               && (step.SyncStep? || step.HelmSyncStep?)
               && Valid(env, s.w, claims, step) && FindsClone(s.clones, step)
             case OtherSync(step) =>
               && !(s.r.pc.Returned? && s.r.pc.app == step.job.app)
               && (step.SyncStep? || step.HelmSyncStep?)
               && Valid(env, s.w, claims, step) && FindsClone(s.clones, step)
             case _ => false
    ensures Enabled(env, s, claims, act)
  {
  }

  /** An act of finalisation that succeeds goes on to the next phase; one that fails gives up, back
      to where finalisation can begin again. */
  ghost predicate GoesOn(env: Env, s: Sys, t: Sys, ok: bool) {
    && StopsAtFault(env, s.w.clock, t.w.clock, ok)
    && (if ok then t.r == s.r else t.r == s.r.(pc := R.Idle) && t.phase == Outside && t.clones == s.clones)
  }

  lemma ClearAppMeans(env: Env, claims: set<Claim>, s: Sys, step: Step)
    requires Separate(claims) && SysInv(env, s, claims)
    requires InHand(s, step.job.app) && s.phase == Outside && !IsSync(step) && Valid(env, s.w, claims, step)
    ensures Enabled(env, s, claims, ClearApp(step))
    ensures var t := Next(env, claims, s, ClearApp(step));
            && GoesOn(env, s, t, t.phase.Cleared?)
            && t.w == Do(env, s.w, step).w && t.hooks == s.hooks
            && (t.phase.Cleared? ==> t.phase == Cleared(step.job.app, Recorded(s.w, step.job.app)))
  {
    DoKeeps(env, s.w, step, claims);
  }

  lemma ClearAppHooksMeans(env: Env, claims: set<Claim>, s: Sys, token: bool, addr: string)
    requires SysInv(env, s, claims) && s.phase.Cleared?
    ensures Enabled(env, s, claims, ClearAppHooks(token, addr))
    ensures var t := Next(env, claims, s, ClearAppHooks(token, addr));
            var done := ClearHooks(env, s.w, s.hooks, token, addr);
            && GoesOn(env, s, t, t.phase.Unhooked?)
            && t.w == done.w && t.hooks == done.hooks
            && (t.phase.Unhooked? ==> t.phase == Unhooked(s.phase.app, s.phase.recorded, token, addr, s.hooks))
  {
    ClearHooksClears(env, s.w, s.hooks, token, addr);
  }

  lemma ClearGitRepoMeans(env: Env, claims: set<Claim>, s: Sys)
    requires s.phase.Unhooked?
    ensures Enabled(env, s, claims, ClearGitRepo)
    ensures var t := Next(env, claims, s, ClearGitRepo);
            var p := s.phase;
            && GoesOn(env, s, t, t.phase.Swept?)
            && t.w == (if env.charts(p.app) then Tick(s.w) else s.w) && t.hooks == s.hooks
            && (t.phase.Swept? ==>
                  && t.phase == Swept(p.app, p.recorded, p.token, p.addr, p.hooks)
                  && t.clones == if env.charts(p.app) then s.clones - {Label(p.app)} else s.clones)
  {
  }

  lemma RemoveFinalizerMeans(env: Env, claims: set<Claim>, s: Sys)
    requires s.phase.Swept?
    ensures Enabled(env, s, claims, RemoveFinalizer)
    ensures var t := Next(env, claims, s, RemoveFinalizer);
            var p := s.phase;
            && GoesOn(env, s, t, t.phase.Finalized?)
            && t.w == Tick(s.w) && t.hooks == s.hooks
            && (t.phase.Finalized? ==>
                  t.clones == s.clones && t.phase == Finalized(p.app, p.recorded, p.token, p.addr, p.hooks))
  {
  }

  /** What `handleFinalizer` does if nothing comes in between: each act if the one before succeeds. */
  ghost function HandleFinalizer(env: Env, claims: set<Claim>, s: Sys, step: Step, token: bool, addr: string): Sys
    requires Enabled(env, s, claims, ClearApp(step))
  {
    var s1 := Next(env, claims, s, ClearApp(step));
    if !s1.phase.Cleared? then s1
    else
      var s2 := Next(env, claims, s1, ClearAppHooks(token, addr));
      if !s2.phase.Unhooked? then s2
      else
        var s3 := Next(env, claims, s2, ClearGitRepo);
        if !s3.phase.Swept? then s3 else Next(env, claims, s3, RemoveFinalizer)
  }

  /** Left to itself, finalisation takes the finalizer off if and only if no call fails; otherwise it
      stops at the first that does, and the reconciler is back where it can try again. */
  lemma FinalisesIff(env: Env, claims: set<Claim>, s: Sys, step: Step, token: bool, addr: string)
    requires Separate(claims) && SysInv(env, s, claims)
    requires InHand(s, step.job.app) && s.phase == Outside && !IsSync(step) && Valid(env, s.w, claims, step)
    ensures Enabled(env, s, claims, ClearApp(step))
    ensures var t := HandleFinalizer(env, claims, s, step, token, addr);
            && StopsAtFault(env, s.w.clock, t.w.clock, t.phase.Finalized?)
            && (!t.phase.Finalized? ==> t.phase == Outside && t.r == s.r.(pc := R.Idle))
            && (t.phase.Finalized? ==> t.phase.app == step.job.app && t.r == s.r)
  {
    ClearAppMeans(env, claims, s, step);
    var s1 := Next(env, claims, s, ClearApp(step));
    if s1.phase.Cleared? {
      NextKeeps(env, claims, s, ClearApp(step));
      ClearAppHooksMeans(env, claims, s1, token, addr);
      var s2 := Next(env, claims, s1, ClearAppHooks(token, addr));
      StopsThenStops(env, s.w.clock, s1.w.clock, s2.w.clock, s2.phase.Unhooked?);
      if s2.phase.Unhooked? {
        ClearGitRepoMeans(env, claims, s2);
        var s3 := Next(env, claims, s2, ClearGitRepo);
        StopsThenStops(env, s.w.clock, s2.w.clock, s3.w.clock, s3.phase.Swept?);
        if s3.phase.Swept? {
          RemoveFinalizerMeans(env, claims, s3);
          var s4 := Next(env, claims, s3, RemoveFinalizer);
          StopsThenStops(env, s.w.clock, s3.w.clock, s4.w.clock, s4.phase.Finalized?);
        }
      }
    }
  }

  // ---------- runs ----------

  ghost predicate CanRun(env: Env, claims: set<Claim>, s: Sys, acts: seq<Act>)
    decreases acts
  {
    acts != [] ==> Enabled(env, s, claims, acts[0]) && CanRun(env, claims, Next(env, claims, s, acts[0]), acts[1..])
  }

  ghost function Run(env: Env, claims: set<Claim>, s: Sys, acts: seq<Act>): Sys
    requires CanRun(env, claims, s, acts)
    decreases acts
  {
    if acts == [] then s else Run(env, claims, Next(env, claims, s, acts[0]), acts[1..])
  }

  lemma NextCounts(env: Env, claims: set<Claim>, s: Sys, act: Act)
    requires Separate(claims) && SysInv(env, s, claims) && Enabled(env, s, claims, act)
    ensures var t := Next(env, claims, s, act);
            && s.w.clock <= t.w.clock
            && |Orphans(t.w)| <= |Orphans(s.w)| + Faults(env, s.w.clock, t.w.clock)
  {
    match act
    case PeriodicSync(ch, step) => DoCounts(env, s.w, step, claims);
    case OtherSync(step) => DoCounts(env, s.w, step, claims);
    case ClearApp(step) => DoCounts(env, s.w, step, claims);
    case ClearAppHooks(token, addr) => ClearHooksClears(env, s.w, s.hooks, token, addr);
    case _ =>
  }

  lemma {:induction false} RunKeeps(env: Env, claims: set<Claim>, s: Sys, acts: seq<Act>)
    requires Separate(claims) && SysInv(env, s, claims) && CanRun(env, claims, s, acts)
    ensures var t := Run(env, claims, s, acts);
            && SysInv(env, t, claims)
            && s.w.clock <= t.w.clock
            && |Orphans(t.w)| <= |Orphans(s.w)| + Faults(env, s.w.clock, t.w.clock)
    decreases acts
  {
    if acts != [] {
      var t := Next(env, claims, s, acts[0]);
      NextKeeps(env, claims, s, acts[0]);
      NextCounts(env, claims, s, acts[0]);
      RunKeeps(env, claims, t, acts[1..]);
      FaultsSplit(env, s.w.clock, t.w.clock, Run(env, claims, s, acts).w.clock);
    }
  }

  /** When the finalizer comes off, after any run in which the routines of other applications
      interleave freely and the process may restart at any point: the application has no live
      routine and no record; of what a plain YAML application had on record nothing is live that
      another application has not created since; whatever else its passes created and left behind
      is no more than there were orphans to begin with and calls that failed since, so nothing if
      there were none; with a token, the webhooks left are those that were at other addresses; and
      a Helm application has no local clone. */
  lemma FinalizedIsClean(env: Env, claims: set<Claim>, w: World, hooks: seq<Hook>, clones: set<string>, acts: seq<Act>)
    requires Separate(claims) && RunInv(env, w, claims) && DistinctIds(hooks)
    requires CanRun(env, claims, Sys(R.INIT, w, hooks, clones, Outside), acts)
    ensures var s := Run(env, claims, Sys(R.INIT, w, hooks, clones, Outside), acts);
            var p := s.phase;
            p.Finalized? ==>
              && R.Gone(s.r, p.app)
              && (forall rk | rk in s.w.ledger :: s.w.ledger[rk].labelValue != Label(p.app))
              && (!env.charts(p.app) ==>
                    forall k | k in p.recorded && k in s.w.target :: CreatedByOther(s.w, p.app, k))
              && w.clock <= s.w.clock
              && |CreatedBy(s.w, p.app)| <= |Orphans(w)| + Faults(env, w.clock, s.w.clock)
              && (p.token ==> s.hooks == Elsewhere(p.hooks, p.addr))
              && (p.token ==> forall h :: h in s.hooks <==> h in p.hooks && h.url != p.addr)
              && (!p.token ==> s.hooks == p.hooks)
              && (env.charts(p.app) ==> Label(p.app) !in s.clones)
  {
    var s0 := Sys(R.INIT, w, hooks, clones, Outside);
    RunKeeps(env, claims, s0, acts);
    var s := Run(env, claims, s0, acts);
    if s.phase.Finalized? {
      R.GoneOnReturn(s.r);
      forall c | c in CreatedBy(s.w, s.phase.app)
        ensures c in Orphans(s.w)
      {
        assert Rk(c) in s.w.ledger ==> s.w.ledger[Rk(c)] == RecordOf(c);
      }
      SubsetSize(CreatedBy(s.w, s.phase.app), Orphans(s.w));
      ElsewhereMeans(s.phase.hooks, s.phase.addr);
    }
  }
}
