/** Telling the watchers that the configuration has changed: one writer pokes channels of
    capacity one without ever blocking, and watchers that were poked read the configuration
    again. Watchers may register at any time, also while the writer is at work and while
    others register: appending to the shared list is loading it and then storing it. */
module ConfigNotify {

  /** A watcher has loaded the list of channels and is about to store it with its own appended;
      once registered it selects, is about to read the configuration, or reconciles with it. */
  datatype Stage = Registering(loaded: seq<nat>) | Select | Read | Reconcile

  /** `token` is the poke waiting in its channel, `has` whether it has been given its resource
      yet, `seen` the configuration its last pass started under. */
  datatype Watcher = Watcher(token: bool, has: bool, stage: Stage, seen: nat)

  /** The writer rests, is assigning the variables one by one, or walks through the channels
      that were in the list when it started to: `i` is where it has come to. */
  datatype Writer = Resting | Assigning | Looking(i: nat, walk: seq<nat>) | Sending(i: nat, walk: seq<nat>)

  /** `version` counts the configurations that are completely assigned; `chans` is the shared
      list, each channel given as the watcher it belongs to. */
  datatype State = State(writer: Writer, version: nat, chans: seq<nat>, watchers: seq<Watcher>)

  const INIT := State(Resting, 0, [], [])

  datatype Action =
    | StartApply
    | Assigned                           // all variables are assigned; the walk begins
    | Walk                               // the writer's next look or send
    | Load                               // a new watcher loads the list of channels
    | Store(j: nat)                      // it stores the list with its own channel appended
    | Resource(j: nat, changed: bool)    // a watcher receives its resource, new version or not
    | Poked(j: nat)                      // a watcher takes the poke from its channel
    | ReadConfig(j: nat, valid: bool)    // it reads the configuration; an invalid mode ends the pass
    | Finish(j: nat)

  predicate At(s: State, j: nat, stage: Stage) {
    j < |s.watchers| && s.watchers[j].stage == stage
  }

  predicate Pending(s: State, j: nat) {
    j < |s.watchers| && s.watchers[j].stage.Registering?
  }

  predicate Registered(s: State, j: nat) {
    j < |s.watchers| && !s.watchers[j].stage.Registering?
  }

  predicate Enabled(s: State, a: Action) {
    match a
    case StartApply => s.writer == Resting
    case Assigned => s.writer == Assigning
    case Walk =>
      s.writer.Looking? || (s.writer.Sending? && s.writer.i < |s.writer.walk| && HasRoom(s, s.writer.walk[s.writer.i]))
    case Load => true
    case Store(j) => Pending(s, j)
    case Resource(j, _) => At(s, j, Select)
    case Poked(j) => At(s, j, Select) && s.watchers[j].token
    case ReadConfig(j, _) => At(s, j, Read)
    case Finish(j) => At(s, j, Reconcile)
  }

  predicate HasRoom(s: State, j: nat) {
    j < |s.watchers| && !s.watchers[j].token
  }

  function Put(s: State, j: nat, w: Watcher): State
    requires j < |s.watchers|
  {
    s.(watchers := s.watchers[j := w])
  }

  function Move(s: State): State
    requires Enabled(s, Walk)
  {
    match s.writer
    case Looking(i, walk) =>
      if i >= |walk| then s.(writer := Resting)
      else if HasRoom(s, walk[i]) then s.(writer := Sending(i, walk))
      else s.(writer := Looking(i + 1, walk))
    case Sending(i, walk) =>
      Put(s, walk[i], s.watchers[walk[i]].(token := true)).(writer := Looking(i + 1, walk))
  }

  function Step(s: State, a: Action): State
    requires Enabled(s, a)
  {
    match a
    case StartApply => s.(writer := Assigning)
    case Assigned => s.(writer := Looking(0, s.chans), version := s.version + 1)
    case Walk => Move(s)
    case Load => s.(watchers := s.watchers + [Watcher(false, false, Registering(s.chans), 0)])
    case Store(j) => Put(s, j, s.watchers[j].(stage := Select)).(chans := s.watchers[j].stage.loaded + [j])
    case Resource(j, changed) =>
      if changed then Put(s, j, s.watchers[j].(has := true, stage := Read)) else s
    case Poked(j) =>
      var w := s.watchers[j];
      Put(s, j, w.(token := false, stage := if w.has then Read else Select))
    case ReadConfig(j, valid) =>
      Put(s, j, s.watchers[j].(seen := s.version, stage := if valid then Reconcile else Select))
    case Finish(j) => Put(s, j, s.watchers[j].(stage := Select))
  }

  predicate CanRun(s: State, actions: seq<Action>)
    decreases actions
  {
    actions != [] ==> Enabled(s, actions[0]) && CanRun(Step(s, actions[0]), actions[1..])
  }

  function Run(s: State, actions: seq<Action>): State
    requires CanRun(s, actions)
    decreases actions
  {
    if actions == [] then s else Run(Step(s, actions[0]), actions[1..])
  }

  // ---------- what holds in every interleaving ----------

  predicate AllRegistered(s: State, chans: seq<nat>) {
    forall j | j in chans :: Registered(s, j)
  }

  predicate WriterFits(s: State) {
    && (s.writer.Looking? || s.writer.Sending? ==> AllRegistered(s, s.writer.walk))
    && (s.writer.Sending? ==> s.writer.i < |s.writer.walk| && HasRoom(s, s.writer.walk[s.writer.i]))
  }

  predicate WatcherFits(s: State, w: Watcher) {
    && w.seen <= s.version
    && (w.stage.Registering? ==> !w.has && !w.token && AllRegistered(s, w.stage.loaded))
  }

  /** Whatever list a step works on, its channels belong to registered watchers; only the writer
      fills channels, so one that has room keeps it until the writer sends. */
  ghost predicate Fits(s: State) {
    && AllRegistered(s, s.chans)
    && WriterFits(s)
    && forall w | w in s.watchers :: WatcherFits(s, w)
  }

  lemma RegisteredStays(s: State, a: Action, j: nat)
    requires Enabled(s, a) && Registered(s, j)
    ensures Registered(Step(s, a), j)
  {
  }

  lemma AllRegisteredStays(s: State, a: Action, chans: seq<nat>)
    requires Enabled(s, a) && AllRegistered(s, chans)
    ensures AllRegistered(Step(s, a), chans)
  {
    forall j | j in chans
      ensures Registered(Step(s, a), j)
    {
      RegisteredStays(s, a, j);
    }
  }

  lemma ChansFit(s: State, a: Action)
    requires Fits(s) && Enabled(s, a)
    ensures AllRegistered(Step(s, a), Step(s, a).chans)
  {
    var t := Step(s, a);
    AllRegisteredStays(s, a, s.chans);
    if a.Store? {
      var loaded := s.watchers[a.j].stage.loaded;
      assert WatcherFits(s, s.watchers[a.j]);
      AllRegisteredStays(s, a, loaded);
      assert Registered(t, a.j);
      assert t.chans == loaded + [a.j];
    } else {
      assert t.chans == s.chans;
    }
  }

  lemma WriterFitsOn(s: State, a: Action)
    requires Fits(s) && Enabled(s, a)
    ensures WriterFits(Step(s, a))
  {
    if a.Assigned? {
      AllRegisteredStays(s, a, s.chans);
    } else if s.writer.Looking? || s.writer.Sending? {
      AllRegisteredStays(s, a, s.writer.walk);
    }
  }

  lemma WatcherFitsOn(s: State, a: Action, j: nat)
    requires Fits(s) && Enabled(s, a) && j < |Step(s, a).watchers|
    ensures WatcherFits(Step(s, a), Step(s, a).watchers[j])
  {
    var w := Step(s, a).watchers[j];
    if j < |s.watchers| {
      assert WatcherFits(s, s.watchers[j]);
      if w.stage.Registering? {
        assert a == Walk && s.writer.Sending? ==> Registered(s, s.writer.walk[s.writer.i]);
        assert w == s.watchers[j];
        AllRegisteredStays(s, a, w.stage.loaded);
      }
    } else {
      assert w.stage == Registering(s.chans);
      AllRegisteredStays(s, a, s.chans);
    }
  }

  lemma FitsOn(s: State, a: Action)
    requires Fits(s) && Enabled(s, a)
    ensures Fits(Step(s, a))
  {
    var t := Step(s, a);
    ChansFit(s, a);
    WriterFitsOn(s, a);
    forall w | w in t.watchers
      ensures WatcherFits(t, w)
    {
      var j :| 0 <= j < |t.watchers| && t.watchers[j] == w;
      WatcherFitsOn(s, a, j);
    }
  }

  lemma {:induction false} RunFits(s: State, actions: seq<Action>)
    requires Fits(s) && CanRun(s, actions)
    ensures Fits(Run(s, actions))
    decreases actions
  {
    if actions != [] {
      FitsOn(s, actions[0]);
      RunFits(Step(s, actions[0]), actions[1..]);
    }
  }

  /** In every interleaving, overlapping registrations included, the writer is never blocked. */
  lemma WriterNeverBlocks(actions: seq<Action>)
    requires CanRun(INIT, actions)
    ensures var s := Run(INIT, actions);
            match s.writer
            case Resting => true
            case Assigning => Enabled(s, Assigned)
            case _ => Enabled(s, Walk)
  {
    RunFits(INIT, actions);
  }

  // ---------- when an update is lost ----------

  /** The last pass of the watcher, if it had one at all, started under an older configuration. */
  predicate Stale(s: State, j: nat) {
    j < |s.watchers| && s.watchers[j].has && s.watchers[j].seen < s.version
  }

  /** The writer has not come to this watcher's channel yet. */
  predicate Ahead(w: Writer, j: nat) {
    (w.Looking? || w.Sending?) && w.i <= |w.walk| && j in w.walk[w.i..]
  }

  /** Something will still make the watcher read the configuration. */
  predicate Reminded(s: State, j: nat) {
    Ahead(s.writer, j) || (j < |s.watchers| && (s.watchers[j].token || s.watchers[j].stage == Read))
  }

  /** The watcher is out of date, and nothing but a new version of its resource will change that. */
  predicate Lost(s: State, j: nat) {
    Stale(s, j) && !Reminded(s, j)
  }

  lemma WalkReminds(s: State, j: nat)
    requires Fits(s) && Enabled(s, Walk) && Reminded(s, j)
    ensures Reminded(Step(s, Walk), j)
  {
    var w := s.writer;
    if Ahead(w, j) && w.i < |w.walk| {
      assert w.walk[w.i..] == [w.walk[w.i]] + w.walk[w.i + 1..];
      assert Registered(s, w.walk[w.i]);
    }
  }

  /** In every interleaving, whatever the registrations have done: a step loses a watcher exactly
      if it begins the writer's walk while the watcher's channel is not in the list, and the
      watcher has its resource, no poke pending, and is not just about to read. */
  lemma LosesIff(s: State, a: Action, j: nat)
    requires Fits(s) && Enabled(s, a) && !Lost(s, j)
    ensures Lost(Step(s, a), j) <==> a == Assigned && j < |s.watchers| && s.watchers[j].has && j !in s.chans
                                     && !s.watchers[j].token && s.watchers[j].stage != Read
  {
    if a == Walk && Reminded(s, j) {
      WalkReminds(s, j);
    }
    if j < |s.watchers| {
      assert WatcherFits(s, s.watchers[j]);
    }
  }

  /** A watcher is about to read the configuration exactly after a new version of its
      resource, or a poke taken with the resource at hand, and until it reads; and it reconciles
      exactly after reading a valid mode, and until it finishes. A poke taken is gone. */
  lemma StagesAre(s: State, a: Action, j: nat)
    requires Fits(s) && Enabled(s, a) && j < |s.watchers|
    ensures var w := s.watchers[j];
            var v := Step(s, a).watchers[j];
            && (v.stage == Read <==> (w.stage == Read && !a.ReadConfig?) || a == Resource(j, true)
                                     || (a == Poked(j) && w.has) || (w.stage == Read && a.j != j))
            && (v.stage == Reconcile <==> (w.stage == Reconcile && a != Finish(j)) || a == ReadConfig(j, true))
            && (v.has <==> w.has || a == Resource(j, true))
            && (v.seen == if a.ReadConfig? && a.j == j then s.version else w.seen)
            && (a == Poked(j) ==> !v.token)
  {
  }

  // ---------- registrations that overlap ----------

  /** The list has changed since the watcher loaded it. */
  predicate Overwrites(s: State, a: Action) {
    a.Store? && Pending(s, a.j) && s.watchers[a.j].stage.loaded != s.chans
  }

  /** No registration is stored over another. */
  predicate NeverOverwrites(s: State, actions: seq<Action>)
    requires CanRun(s, actions)
    decreases actions
  {
    actions != [] ==> !Overwrites(s, actions[0]) && NeverOverwrites(Step(s, actions[0]), actions[1..])
  }

  /** The watcher has registered, but the list does not hold its channel. */
  predicate Dropped(s: State, k: nat) {
    Registered(s, k) && k !in s.chans
  }

  /** Every finished registration is in the list. */
  ghost predicate AllListed(s: State) {
    forall j: nat :: !Dropped(s, j)
  }

  ghost predicate AlwaysListed(s: State, actions: seq<Action>)
    requires CanRun(s, actions)
    decreases actions
  {
    AllListed(s) && (actions != [] ==> AlwaysListed(Step(s, actions[0]), actions[1..]))
  }

  predicate Distinct(chans: seq<nat>) {
    forall i, j | 0 <= i < j < |chans| :: chans[i] != chans[j]
  }

  /** The list holds each registered watcher once, and has at most grown since it was loaded. */
  ghost predicate Listed(s: State) {
    && Fits(s) && AllListed(s) && Distinct(s.chans)
    && forall j: nat | Pending(s, j) :: s.watchers[j].stage.loaded <= s.chans
  }

  lemma AllListedKept(s: State, a: Action)
    requires Listed(s) && Enabled(s, a) && !Overwrites(s, a)
    ensures AllListed(Step(s, a))
  {
    var t := Step(s, a);
    forall j: nat
      ensures !Dropped(t, j)
    {
      assert !Dropped(s, j);
    }
  }

  lemma ListedKept(s: State, a: Action)
    requires Listed(s) && Enabled(s, a) && !Overwrites(s, a)
    ensures Listed(Step(s, a))
  {
    var t := Step(s, a);
    FitsOn(s, a);
    AllListedKept(s, a);
    if a.Store? {
      assert a.j !in s.chans;
      assert forall j: nat | Pending(t, j) :: Pending(s, j);
    }
  }

  /** Storing over a list that has grown drops a registration. */
  lemma OverwriteDrops(s: State, a: Action)
    requires Listed(s) && Enabled(s, a) && Overwrites(s, a)
    ensures exists k: nat :: Dropped(Step(s, a), k)
  {
    var loaded := s.watchers[a.j].stage.loaded;
    var k := s.chans[|loaded|];
    assert k in s.chans && Registered(s, k);
    RegisteredStays(s, a, k);
    assert loaded == s.chans[..|loaded|];
    assert k !in loaded;
    assert Dropped(Step(s, a), k);
  }

  lemma {:induction false} ListedIffFrom(s: State, actions: seq<Action>)
    requires Listed(s) && CanRun(s, actions)
    ensures AlwaysListed(s, actions) <==> NeverOverwrites(s, actions)
    ensures NeverOverwrites(s, actions) ==> Listed(Run(s, actions))
    decreases actions
  {
    if actions != [] {
      if Overwrites(s, actions[0]) {
        OverwriteDrops(s, actions[0]);
      } else {
        ListedKept(s, actions[0]);
        ListedIffFrom(Step(s, actions[0]), actions[1..]);
      }
    }
  }

  /** Along every run: every finished registration stays in the list if and only if no
      registration is stored over another. */
  lemma ListedIff(actions: seq<Action>)
    requires CanRun(INIT, actions)
    ensures AlwaysListed(INIT, actions) <==> NeverOverwrites(INIT, actions)
  {
    ListedIffFrom(INIT, actions);
  }

  /** Each watcher registers while no other is about to, as when all register before they run. */
  predicate OneAtATime(s: State, actions: seq<Action>)
    requires CanRun(s, actions)
    decreases actions
  {
    actions != [] ==>
      && (actions[0].Load? ==> forall w | w in s.watchers :: !w.stage.Registering?)
      && OneAtATime(Step(s, actions[0]), actions[1..])
  }

  ghost predicate AtMostOnePending(s: State) {
    && (forall i: nat, j: nat | Pending(s, i) && Pending(s, j) :: i == j)
    && (forall j: nat | Pending(s, j) :: s.watchers[j].stage.loaded == s.chans)
  }

  lemma {:induction false} OneAtATimeNeverOverwrites(s: State, actions: seq<Action>)
    requires AtMostOnePending(s) && CanRun(s, actions) && OneAtATime(s, actions)
    ensures NeverOverwrites(s, actions)
    decreases actions
  {
    if actions != [] {
      var t := Step(s, actions[0]);
      if actions[0].Load? {
        assert forall j: nat :: !Pending(s, j);
        assert forall j: nat | Pending(t, j) :: j == |s.watchers|;
      } else {
        assert forall j: nat | Pending(t, j) :: Pending(s, j);
      }
      OneAtATimeNeverOverwrites(t, actions[1..]);
    }
  }

  lemma RunCons(s: State, a: Action, rest: seq<Action>)
    requires Enabled(s, a) && CanRun(Step(s, a), rest)
    ensures CanRun(s, [a] + rest) && Run(s, [a] + rest) == Run(Step(s, a), rest)
  {
    assert ([a] + rest)[1..] == rest;
  }

  lemma {:induction false} RunConcat(s: State, a: seq<Action>, b: seq<Action>)
    requires CanRun(s, a) && CanRun(Run(s, a), b)
    ensures CanRun(s, a + b) && Run(s, a + b) == Run(Run(s, a), b)
    decreases a
  {
    if a == [] {
      assert a + b == b;
    } else {
      assert (a + b)[1..] == a[1..] + b;
      RunConcat(Step(s, a[0]), a[1..], b);
    }
  }

  lemma RunSnoc(s: State, actions: seq<Action>, a: Action)
    requires CanRun(s, actions) && Enabled(Run(s, actions), a)
    ensures CanRun(s, actions + [a]) && Run(s, actions + [a]) == Step(Run(s, actions), a)
  {
    var t := Run(s, actions);
    RunCons(t, a, []);
    assert [a] + [] == [a];
    RunConcat(s, actions, [a]);
  }

  /** The writer can always go on to where it is about to begin a walk, whatever it is doing. */
  lemma {:induction false} WriterReachesAssigning(s: State, k: nat) returns (rest: seq<Action>)
    requires Fits(s) && Dropped(s, k)
    ensures CanRun(s, rest) && Fits(Run(s, rest)) && Dropped(Run(s, rest), k) && Run(s, rest).writer == Assigning
    decreases match s.writer
              case Assigning => 0
              case Resting => 1
              case Looking(i, walk) => 2 + 2 * (if i < |walk| then |walk| - i else 0)
              case Sending(i, walk) => 1 + 2 * (if i < |walk| then |walk| - i else 0)
  {
    if s.writer == Assigning {
      rest := [];
    } else {
      var a := if s.writer == Resting then StartApply else Walk;
      FitsOn(s, a);
      var more := WriterReachesAssigning(Step(s, a), k);
      RunCons(s, a, more);
      rest := [a] + more;
    }
  }

  /** Nothing is under way for the watcher, which has its resource. */
  predicate Idle(s: State, k: nat) {
    k < |s.watchers| && s.watchers[k].has && !s.watchers[k].token && s.watchers[k].stage == Reconcile
  }

  /** How many steps of the watcher that takes at most. */
  function StepsToIdle(w: Watcher): nat {
    if !w.has then (match w.stage case Select => 6 case Reconcile => 7 case _ => 8)
    else if w.token then (match w.stage case Select => 3 case Reconcile => 4 case _ => 5)
    else (match w.stage case Reconcile => 0 case Read => 1 case _ => 2)
  }

  /** With the writer about to begin its walk, the watcher can run until nothing is under way. */
  lemma {:induction false} WatcherReachesIdle(s: State, k: nat) returns (rest: seq<Action>)
    requires Fits(s) && Dropped(s, k) && s.writer == Assigning
    ensures CanRun(s, rest) && Fits(Run(s, rest)) && Dropped(Run(s, rest), k) && Run(s, rest).writer == Assigning
    ensures Idle(Run(s, rest), k)
    decreases StepsToIdle(s.watchers[k])
  {
    if Idle(s, k) {
      rest := [];
    } else {
      var w := s.watchers[k];
      var a := match w.stage
               case Reconcile => Finish(k)
               case Read => ReadConfig(k, true)
               case _ => if w.token && w.has then Poked(k) else Resource(k, true);
      FitsOn(s, a);
      var more := WatcherReachesIdle(Step(s, a), k);
      RunCons(s, a, more);
      rest := [a] + more;
    }
  }

  /** A registered watcher that is not in the list can always come to miss an update. */
  lemma DroppedCanLose(s: State, k: nat) returns (rest: seq<Action>)
    requires Fits(s) && Dropped(s, k)
    ensures CanRun(s, rest) && Lost(Run(s, rest), k)
  {
    var first := WriterReachesAssigning(s, k);
    var u := Run(s, first);
    var second := WatcherReachesIdle(u, k);
    var v := Run(u, second);
    assert WatcherFits(v, v.watchers[k]);
    RunConcat(s, first, second);
    RunSnoc(s, first + second, Assigned);
    rest := first + second + [Assigned];
  }

  /** A registration stored over another can always go on to lose an update. */
  lemma OverwriteCanLose(actions: seq<Action>, a: Action) returns (k: nat, rest: seq<Action>)
    requires CanRun(INIT, actions) && NeverOverwrites(INIT, actions)
    requires Enabled(Run(INIT, actions), a) && Overwrites(Run(INIT, actions), a)
    ensures CanRun(INIT, actions + [a] + rest) && Lost(Run(INIT, actions + [a] + rest), k)
  {
    var s := Run(INIT, actions);
    ListedIffFrom(INIT, actions);
    OverwriteDrops(s, a);
    FitsOn(s, a);
    RunSnoc(INIT, actions, a);
    k :| Dropped(Step(s, a), k);
    rest := DroppedCanLose(Step(s, a), k);
    RunConcat(INIT, actions + [a], rest);
  }

  /** As when two watchers register over each other: both load the empty list before either
      stores, so that only the second is in it. */
  lemma OverlapDrops()
    ensures var overlap := [Load, Load, Store(0), Store(1)];
            && CanRun(INIT, overlap)
            && !NeverOverwrites(INIT, overlap)
            && Run(INIT, overlap).chans == [1] && Dropped(Run(INIT, overlap), 0)
  {
    var s1 := Step(INIT, Load);
    var s2 := Step(s1, Load);
    var s3 := Step(s2, Store(0));
    RunCons(s3, Store(1), []);
    RunCons(s2, Store(0), [Store(1)] + []);
    RunCons(s1, Load, [Store(0)] + ([Store(1)] + []));
    RunCons(INIT, Load, [Load] + ([Store(0)] + ([Store(1)] + [])));
    assert [Load] + ([Load] + ([Store(0)] + ([Store(1)] + []))) == [Load, Load, Store(0), Store(1)];
    assert s3.chans == [0];
    assert Overwrites(s3, Store(1));
  }

  // ---------- no update is lost ----------

  ghost predicate Inv(s: State) {
    Listed(s) && forall j: nat | j < |s.watchers| :: !Lost(s, j)
  }

  lemma StepKeeps(s: State, a: Action)
    requires Inv(s) && Enabled(s, a) && !Overwrites(s, a)
    ensures Inv(Step(s, a))
  {
    var t := Step(s, a);
    ListedKept(s, a);
    forall j: nat | j < |t.watchers|
      ensures !Lost(t, j)
    {
      if j < |s.watchers| {
        LosesIff(s, a, j);
        assert WatcherFits(s, s.watchers[j]);
        assert !Dropped(s, j);
      }
    }
  }

  lemma {:induction false} RunKeeps(s: State, actions: seq<Action>)
    requires Inv(s) && CanRun(s, actions) && NeverOverwrites(s, actions)
    ensures Inv(Run(s, actions))
    decreases actions
  {
    if actions != [] {
      StepKeeps(s, actions[0]);
      RunKeeps(Step(s, actions[0]), actions[1..]);
    }
  }

  /** In every interleaving in which no registration is stored over another: a watcher whose last
      pass started under an older configuration has a poke pending, or is just about to read the
      configuration, or the writer has yet to come to its channel. */
  lemma NoLostUpdate(actions: seq<Action>)
    requires CanRun(INIT, actions) && NeverOverwrites(INIT, actions)
    ensures var s := Run(INIT, actions);
            forall j: nat | Stale(s, j) :: Reminded(s, j)
  {
    RunKeeps(INIT, actions);
    var s := Run(INIT, actions);
    forall j: nat | Stale(s, j)
      ensures Reminded(s, j)
    {
      assert !Lost(s, j);
    }
  }

  /** What a watcher does next, left to itself, until it has read the configuration. */
  function CatchUp(s: State, j: nat): seq<Action>
    requires Registered(s, j)
  {
    match s.watchers[j].stage
    case Read => [ReadConfig(j, true)]
    case Select => [Poked(j), ReadConfig(j, true)]
    case Reconcile => [Finish(j), Poked(j), ReadConfig(j, true)]
  }

  lemma CatchesUp(s: State, j: nat)
    requires Registered(s, j) && s.watchers[j].has && (s.watchers[j].token || s.watchers[j].stage == Read)
    ensures CanRun(s, CatchUp(s, j))
    ensures var t := Run(s, CatchUp(s, j));
            t.version == s.version && j < |t.watchers| && t.watchers[j].seen == s.version
  {
    var read := ReadConfig(j, true);
    if s.watchers[j].stage == Read {
      RunCons(s, read, []);
    } else {
      var u := if s.watchers[j].stage == Reconcile then Step(s, Finish(j)) else s;
      var v := Step(u, Poked(j));
      RunCons(v, read, []);
      RunCons(u, Poked(j), [read]);
      if s.watchers[j].stage == Reconcile {
        RunCons(s, Finish(j), [Poked(j), read]);
      }
    }
  }

  /** Then, with the writer at rest, every stale watcher catches up by steps of its own, and
      nothing else has to happen first. */
  lemma StaleCatchesUp(actions: seq<Action>, j: nat)
    requires CanRun(INIT, actions) && NeverOverwrites(INIT, actions)
    requires var s := Run(INIT, actions); s.writer == Resting && Stale(s, j)
    ensures var s := Run(INIT, actions);
            && Registered(s, j)
            && CanRun(s, CatchUp(s, j))
            && var t := Run(s, CatchUp(s, j));
               t.version == s.version && j < |t.watchers| && t.watchers[j].seen == s.version
  {
    RunKeeps(INIT, actions);
    var s := Run(INIT, actions);
    assert WatcherFits(s, s.watchers[j]) && !Lost(s, j);
    CatchesUp(s, j);
  }

  /** Then, when everything has come to rest, every watcher with a resource has made its last
      pass under the latest configuration. */
  lemma AtRestAllCurrent(actions: seq<Action>)
    requires CanRun(INIT, actions) && NeverOverwrites(INIT, actions)
    requires var s := Run(INIT, actions);
             s.writer == Resting && forall w | w in s.watchers :: w.stage == Select && !w.token
    ensures var s := Run(INIT, actions);
            forall w | w in s.watchers && w.has :: w.seen == s.version
  {
    RunKeeps(INIT, actions);
    var s := Run(INIT, actions);
    forall w | w in s.watchers && w.has
      ensures w.seen == s.version
    {
      var j :| 0 <= j < |s.watchers| && s.watchers[j] == w;
      assert !Lost(s, j) && WatcherFits(s, w);
    }
  }
}
