/** The periodic-sync routines: one reconciler starts them and stops them by rendezvous on
    an unbuffered channel, keeping three maps of what runs. Each statement that touches a map
    or a channel is a step of its own, and routines step in between as they please. */
module Routines {
  import opened Strings
  import opened Wrappers
  import opened Ledger

  type Chan = nat

  function Key(app: App): string {
    app.name + "/" + app.ns
  }

  /** Kubernetes names contain no '/'. */
  predicate Named(app: App) {
    '/' !in app.name && '/' !in app.ns
  }

  lemma KeyInjective(a: App, b: App)
    requires Named(a) && Named(b)
    ensures Key(a) == Key(b) <==> a == b
  {
    if Key(a) == Key(b) {
      CutUnique(a.name, a.ns, b.name, b.ns, '/');
    }
  }

  /** A routine waits in its select, runs a periodic `CheckSync`, or has returned. */
  datatype Doing = Waiting | Checking | Finished

  datatype Routine = Routine(app: App, doing: Doing)

  /** Why `deleteSyncFlag` is called: to start afresh with this period, or to finalise. */
  datatype Why = Renew(period: int) | Finalize

  /** Where the reconciler stands. */
  datatype Pc =
    | Idle
    | Testing(app: App, why: Why)
    | Sending(app: App, why: Why)
    | Stopping(app: App, why: Why)
    | DropFlag(app: App, why: Why)
    | DropTicker(app: App, why: Why)
    | DropPeriod(app: App, why: Why)
    | Returned(app: App)  // out of `deleteSyncFlag`, in `finalizeApp`
    | MakeChan(app: App, period: int)
    | MakeTicker(app: App, period: int, done: Chan)
    | MakePeriod(app: App, period: int, done: Chan)
    | Spawning(app: App, done: Chan)
    | Crashed  // the ticker refuses a period that is not positive

  datatype State = State(
    pc: Pc,
    flags: map<string, Chan>,
    tickers: map<string, int>,
    periods: map<string, int>,
    routines: map<Chan, Routine>,
    next: Chan)

  const INIT := State(Idle, map[], map[], map[], map[], 0)

  /** Go's 64-bit arithmetic: the period in seconds as a duration. */
  function Nanoseconds(period: int): int {
    (period * 1_000_000_000 + 0x8000_0000_0000_0000) % 0x1_0000_0000_0000_0000 - 0x8000_0000_0000_0000
  }

  /** Up to some 292 years that is what it is. */
  lemma NanosecondsAre(period: int)
    requires 1 <= period <= 9_223_372_036
    ensures Nanoseconds(period) == 1_000_000_000 * period
  {
  }

  datatype Action =
    | Begin(app: App, why: Why)  // the reconciler calls `deleteSyncFlag`
    | Advance                    // the reconciler's next statement; a send needs its receiver
    | Leave                      // `finalizeApp` is over, one way or the other
    | Tick(ch: Chan)             // a routine receives a tick and starts `CheckSync`
    | CheckDone(ch: Chan)        // that `CheckSync` returns

  predicate Live(s: State, ch: Chan) {
    ch in s.routines && s.routines[ch].doing != Finished
  }

  /** A receiver stands ready on the channel the reconciler sends on. */
  predicate Receivable(s: State, key: string) {
    key in s.flags && s.flags[key] in s.routines && s.routines[s.flags[key]].doing == Waiting
  }

  predicate Enabled(s: State, a: Action) {
    match a
    case Begin(app, _) => s.pc == Idle && Named(app)
    case Advance =>
      (match s.pc
       case Idle => false
       case Returned(_) => false
       case Crashed => false
       case Sending(app, _) => Receivable(s, Key(app))
       case _ => true)
    case Leave => s.pc.Returned?
    case Tick(ch) => ch in s.routines && s.routines[ch].doing == Waiting && s.pc != Crashed
    case CheckDone(ch) => ch in s.routines && s.routines[ch].doing == Checking && s.pc != Crashed
  }

  function Become(s: State, ch: Chan, doing: Doing): State
    requires ch in s.routines
  {
    s.(routines := s.routines[ch := s.routines[ch].(doing := doing)])
  }

  /** The reconciler's next statement. */
  function Move(s: State): State
    requires Enabled(s, Advance)
  {
    match s.pc
    case Testing(app, why) =>
      if Key(app) in s.flags && Key(app) in s.tickers then s.(pc := Sending(app, why)) else s.(pc := DropFlag(app, why))
    case Sending(app, why) => Become(s, s.flags[Key(app)], Finished).(pc := Stopping(app, why))
    case Stopping(app, why) => s.(pc := DropFlag(app, why))
    case DropFlag(app, why) => s.(flags := s.flags - {Key(app)}, pc := DropTicker(app, why))
    case DropTicker(app, why) => s.(tickers := s.tickers - {Key(app)}, pc := DropPeriod(app, why))
    case DropPeriod(app, why) =>
      s.(periods := s.periods - {Key(app)}, pc := if why.Renew? then MakeChan(app, why.period) else Returned(app))
    case MakeChan(app, period) =>
      s.(flags := s.flags[Key(app) := s.next], next := s.next + 1, pc := MakeTicker(app, period, s.next))
    case MakeTicker(app, period, done) =>
      if Nanoseconds(period) <= 0 then s.(pc := Crashed)
      else s.(tickers := s.tickers[Key(app) := Nanoseconds(period)], pc := MakePeriod(app, period, done))
    case MakePeriod(app, period, done) => s.(periods := s.periods[Key(app) := period], pc := Spawning(app, done))
    case Spawning(app, done) => s.(routines := s.routines[done := Routine(app, Waiting)], pc := Idle)
  }

  function Step(s: State, a: Action): State
    requires Enabled(s, a)
  {
    match a
    case Begin(app, why) => s.(pc := Testing(app, why))
    case Advance => Move(s)
    case Leave => s.(pc := Idle)
    case Tick(ch) => Become(s, ch, Checking)
    case CheckDone(ch) => Become(s, ch, Waiting)
  }

  predicate CanRun(s: State, actions: seq<Action>)
    decreases actions
  {
    actions != [] ==> Enabled(s, actions[0]) && CanRun(Step(s, actions[0]), actions[1..])
  }

  function Run(s: State, actions: seq<Action>): State
    requires CanRun(s, actions)
    decreases actions
  {
    if actions == [] then s else Run(Step(s, actions[0]), actions[1..])
  }

  // ---------- the invariant ----------

  predicate PcNamed(pc: Pc) {
    pc != Idle && pc != Crashed ==> Named(pc.app)
  }

  predicate BusyWith(pc: Pc, key: string) {
    pc != Idle && pc != Crashed && key == Key(pc.app)
  }

  /** The three maps agree on a key. */
  predicate Agree(s: State, key: string) {
    (key in s.flags <==> key in s.tickers) && (key in s.tickers <==> key in s.periods)
  }

  predicate Registered(s: State, key: string, ch: Chan) {
    key in s.flags && s.flags[key] == ch
  }

  /** The flag under this key has its routine: alive, and of that application. */
  predicate Served(s: State, key: string) {
    key in s.flags && Live(s, s.flags[key]) && Key(s.routines[s.flags[key]].app) == key
  }

  /** A routine has just been told to stop, or has been registered and not yet spawned. */
  predicate Unserved(pc: Pc, key: string) {
    (pc.Stopping? || pc.DropFlag? || pc.MakeTicker? || pc.MakePeriod? || pc.Spawning?) && key == Key(pc.app)
  }

  /** Which maps hold the key the reconciler is busy with, at this point. */
  predicate KeyProgress(s: State) {
    match s.pc
    case Idle => true
    case Crashed => true
    case Testing(app, _) => Agree(s, Key(app))
    case DropFlag(app, _) => Agree(s, Key(app))
    case Sending(app, _) => Agree(s, Key(app)) && Key(app) in s.flags
    case Stopping(app, _) => Agree(s, Key(app)) && Key(app) in s.flags
    case DropTicker(app, _) => Key(app) !in s.flags && (Key(app) in s.tickers <==> Key(app) in s.periods)
    case DropPeriod(app, _) => Key(app) !in s.flags && Key(app) !in s.tickers
    case Returned(app) => Agree(s, Key(app)) && Key(app) !in s.flags
    case MakeChan(app, _) => Agree(s, Key(app)) && Key(app) !in s.flags
    case MakeTicker(app, _, done) => Registered(s, Key(app), done) && Key(app) !in s.tickers && Key(app) !in s.periods
    case MakePeriod(app, _, done) => Registered(s, Key(app), done) && Key(app) in s.tickers && Key(app) !in s.periods
    case Spawning(app, done) => Registered(s, Key(app), done) && Agree(s, Key(app))
  }

  /** Channels are used once: those not yet made are above all that exist. */
  ghost predicate ChansFresh(s: State) {
    && (forall ch | ch in s.routines :: ch < s.next)
    && (forall key | key in s.flags :: s.flags[key] < s.next)
    && (s.pc.MakeTicker? || s.pc.MakePeriod? || s.pc.Spawning? ==> s.pc.done !in s.routines)
  }

  ghost predicate Inv(s: State) {
    && ChansFresh(s)
    && KeyProgress(s)
    && (forall ch | Live(s, ch) :: Registered(s, Key(s.routines[ch].app), ch))
    && (s.pc != Crashed ==> forall key | key in s.flags && !Unserved(s.pc, key) :: Served(s, key))
    && (forall key | key in s.flags && Unserved(s.pc, key) :: !Live(s, s.flags[key]))
    && (s.pc != Crashed ==> forall key | !BusyWith(s.pc, key) :: Agree(s, key))
    && PcNamed(s.pc)
    && (forall ch | ch in s.routines :: Named(s.routines[ch].app))
  }

  lemma AgreeKept(s: State, a: Action)
    requires Inv(s) && Enabled(s, a)
    ensures var t := Step(s, a);
            t.pc != Crashed ==> forall key | !BusyWith(t.pc, key) :: Agree(t, key)
  {
    var t := Step(s, a);
    forall key | t.pc != Crashed && !BusyWith(t.pc, key)
      ensures Agree(t, key)
    {
      assert BusyWith(s.pc, key) || Agree(s, key);
    }
  }

  lemma ProgressKept(s: State, a: Action)
    requires Inv(s) && Enabled(s, a)
    ensures KeyProgress(Step(s, a))
  {
    if a.Begin? {
      assert Agree(s, Key(a.app));
    }
  }

  lemma NamedKept(s: State, a: Action)
    requires Inv(s) && Enabled(s, a)
    ensures var t := Step(s, a);
            PcNamed(t.pc) && forall ch | ch in t.routines :: Named(t.routines[ch].app)
  {
    var t := Step(s, a);
    assert PcNamed(t.pc);
    forall ch | ch in t.routines
      ensures Named(t.routines[ch].app)
    {
      if ch in s.routines {
        assert Named(s.routines[ch].app);
      }
    }
  }

  lemma RoutinesBelowNext(s: State, a: Action)
    requires Inv(s) && Enabled(s, a)
    ensures var t := Step(s, a);
            forall ch | ch in t.routines :: ch < t.next
  {
    var t := Step(s, a);
    assert s.next <= t.next;
    forall ch | ch in t.routines
      ensures ch < s.next
    {
      assert ch in s.routines || (s.pc.Spawning? && Registered(s, Key(s.pc.app), ch));
    }
  }

  lemma FlagsBelowNext(s: State, a: Action)
    requires Inv(s) && Enabled(s, a)
    ensures var t := Step(s, a);
            forall key | key in t.flags :: t.flags[key] < t.next
  {
    var t := Step(s, a);
    forall key | key in t.flags
      ensures t.flags[key] < t.next
    {
      assert (key in s.flags && s.flags[key] == t.flags[key]) || t.flags[key] == s.next;
    }
  }

  lemma ChansKept(s: State, a: Action)
    requires Inv(s) && Enabled(s, a)
    ensures ChansFresh(Step(s, a))
  {
    RoutinesBelowNext(s, a);
    FlagsBelowNext(s, a);
  }

  lemma LiveKept(s: State, a: Action)
    requires Inv(s) && Enabled(s, a)
    ensures var t := Step(s, a);
            forall ch | Live(t, ch) :: Registered(t, Key(t.routines[ch].app), ch)
  {
    var t := Step(s, a);
    forall ch | Live(t, ch)
      ensures Registered(t, Key(t.routines[ch].app), ch)
    {
      if ch in s.routines {
        assert Live(s, ch);
        assert t.routines[ch].app == s.routines[ch].app;
        assert Registered(s, Key(s.routines[ch].app), ch);
      }
    }
  }

  lemma UnservedKept(s: State, a: Action)
    requires Inv(s) && Enabled(s, a)
    ensures var t := Step(s, a);
            forall key | key in t.flags && Unserved(t.pc, key) :: !Live(t, t.flags[key])
  {
  }

  lemma ServedKept(s: State, a: Action)
    requires Inv(s) && Enabled(s, a)
    ensures var t := Step(s, a);
            t.pc != Crashed ==> forall key | key in t.flags && !Unserved(t.pc, key) :: Served(t, key)
  {
    var t := Step(s, a);
    forall key | t.pc != Crashed && key in t.flags && !Unserved(t.pc, key)
      ensures Served(t, key)
    {
      if !Unserved(s.pc, key) && key in s.flags {
        assert Served(s, key);
      }
    }
  }

  lemma StepKeeps(s: State, a: Action)
    requires Inv(s) && Enabled(s, a)
    ensures Inv(Step(s, a))
  {
    AgreeKept(s, a);
    ProgressKept(s, a);
    ChansKept(s, a);
    NamedKept(s, a);
    LiveKept(s, a);
    UnservedKept(s, a);
    ServedKept(s, a);
  }

  /** Each ticker runs at the recorded period, as a positive duration. */
  ghost predicate Ticking(s: State) {
    && (forall key | key in s.tickers && key in s.periods :: s.tickers[key] == Nanoseconds(s.periods[key]) > 0)
    && (s.pc.MakePeriod? && Key(s.pc.app) in s.tickers ==> s.tickers[Key(s.pc.app)] == Nanoseconds(s.pc.period) > 0)
  }

  lemma TickingKept(s: State, a: Action)
    requires Inv(s) && Ticking(s) && Enabled(s, a)
    ensures Ticking(Step(s, a))
  {
  }

  lemma {:induction false} RunKeeps(s: State, actions: seq<Action>)
    requires Inv(s) && Ticking(s) && CanRun(s, actions)
    ensures Inv(Run(s, actions)) && Ticking(Run(s, actions))
    decreases actions
  {
    if actions != [] {
      StepKeeps(s, actions[0]);
      TickingKept(s, actions[0]);
      RunKeeps(Step(s, actions[0]), actions[1..]);
    }
  }

  // ---------- what holds in every reachable state ----------

  /** The reconciler is not in the middle of taking down or putting up an entry. */
  predicate Settled(pc: Pc) {
    pc.Idle? || pc.Testing? || pc.Sending? || pc.Returned? || pc.MakeChan?
  }

  lemma SameKeys(s: State)
    requires Inv(s) && Settled(s.pc)
    ensures s.flags.Keys == s.tickers.Keys == s.periods.Keys
  {
    forall key
      ensures key in s.flags <==> key in s.tickers
      ensures key in s.tickers <==> key in s.periods
    {
      assert BusyWith(s.pc, key) || Agree(s, key);
    }
  }

  lemma LiveIffFlagged(s: State, ch: Chan)
    requires Inv(s) && Settled(s.pc)
    ensures Live(s, ch) <==> ch in s.flags.Values
  {
    if Live(s, ch) {
      assert s.flags[Key(s.routines[ch].app)] == ch;
    }
    if key :| key in s.flags && s.flags[key] == ch {
      assert Served(s, key);
    }
  }

  /** In every reachable state an application has at most one live routine; and whenever the
      reconciler is not half way through its bookkeeping, the three maps have the same keys
      and the live routines are exactly those whose channel is in the map, each under the
      key of its own application, with a ticker at the recorded period. */
  lemma Bookkeeping(actions: seq<Action>)
    requires CanRun(INIT, actions)
    ensures var s := Run(INIT, actions);
            && (forall ch, d | Live(s, ch) && Live(s, d) && s.routines[ch].app == s.routines[d].app :: ch == d)
            && (Settled(s.pc) ==>
                  && s.flags.Keys == s.tickers.Keys == s.periods.Keys
                  && (forall ch :: Live(s, ch) <==> ch in s.flags.Values)
                  && (forall ch | Live(s, ch) :: Registered(s, Key(s.routines[ch].app), ch))
                  && (forall key | key in s.flags :: s.tickers[key] == Nanoseconds(s.periods[key]) > 0)
                  && (forall key | key in s.flags && 1 <= s.periods[key] <= 9_223_372_036 ::
                        s.tickers[key] == 1_000_000_000 * s.periods[key]))
  {
    RunKeeps(INIT, actions);
    var s := Run(INIT, actions);
    if Settled(s.pc) {
      SameKeys(s);
      forall ch
        ensures Live(s, ch) <==> ch in s.flags.Values
      {
        LiveIffFlagged(s, ch);
      }
      forall key | key in s.flags && 1 <= s.periods[key] <= 9_223_372_036
        ensures s.tickers[key] == 1_000_000_000 * s.periods[key]
      {
        NanosecondsAre(s.periods[key]);
      }
    }
  }

  // ---------- whose period it is ----------

  /** What the application was last begun for. */
  function LastWhy(actions: seq<Action>, app: App): Option<Why> {
    if actions == [] then None
    else
      var a := actions[|actions| - 1];
      if a.Begin? && a.app == app then Some(a.why) else LastWhy(actions[..|actions| - 1], app)
  }

  /** The recorded period is that of the last renewal, and none is recorded after a finalisation. */
  predicate Remembered(s: State, why: Option<Why>, key: string) {
    if key in s.periods then why == Some(Renew(s.periods[key])) else why == None || why == Some(Finalize)
  }

  predicate PcRemembers(s: State, actions: seq<Action>) {
    match s.pc
    case Idle => true
    case Crashed => true
    case Testing(app, why) => LastWhy(actions, app) == Some(why)
    case Sending(app, why) => LastWhy(actions, app) == Some(why)
    case Stopping(app, why) => LastWhy(actions, app) == Some(why)
    case DropFlag(app, why) => LastWhy(actions, app) == Some(why)
    case DropTicker(app, why) => LastWhy(actions, app) == Some(why)
    case DropPeriod(app, why) => LastWhy(actions, app) == Some(why)
    case Returned(app) => LastWhy(actions, app) == Some(Finalize)
    case MakeChan(app, period) => LastWhy(actions, app) == Some(Renew(period))
    case MakeTicker(app, period, _) => LastWhy(actions, app) == Some(Renew(period))
    case MakePeriod(app, period, _) => LastWhy(actions, app) == Some(Renew(period))
    case Spawning(app, _) => Key(app) in s.periods && LastWhy(actions, app) == Some(Renew(s.periods[Key(app)]))
  }

  ghost predicate History(s: State, actions: seq<Action>) {
    && PcRemembers(s, actions)
    && (s.pc != Crashed ==>
          forall app | Named(app) && !BusyWith(s.pc, Key(app)) :: Remembered(s, LastWhy(actions, app), Key(app)))
  }

  lemma LastWhySnoc(done: seq<Action>, a: Action, app: App)
    ensures LastWhy(done + [a], app) == if a.Begin? && a.app == app then Some(a.why) else LastWhy(done, app)
  {
    assert (done + [a])[..|done|] == done;
  }

  lemma PcRemembersOn(s: State, done: seq<Action>, a: Action)
    requires Inv(s) && PcRemembers(s, done) && Enabled(s, a)
    ensures PcRemembers(Step(s, a), done + [a])
  {
    var pc := Step(s, a).pc;
    if pc != Idle && pc != Crashed {
      LastWhySnoc(done, a, pc.app);
    }
  }

  /** A step touches no period but that of the application the reconciler is busy with. */
  lemma PeriodKept(s: State, a: Action, key: string)
    requires Enabled(s, a) && !BusyWith(s.pc, key)
    ensures key in Step(s, a).periods <==> key in s.periods
    ensures key in s.periods ==> Step(s, a).periods[key] == s.periods[key]
  {
  }

  /** The reconciler is done with the application. */
  lemma RememberedWhenDone(s: State, done: seq<Action>, a: Action)
    requires Inv(s) && PcRemembers(s, done) && Enabled(s, a)
    requires s.pc != Idle && s.pc != Crashed && Step(s, a).pc == Idle
    ensures Remembered(Step(s, a), LastWhy(done, s.pc.app), Key(s.pc.app))
  {
  }

  lemma RememberedOn(s: State, done: seq<Action>, a: Action, app: App)
    requires Inv(s) && History(s, done) && Enabled(s, a)
    requires Named(app) && Step(s, a).pc != Crashed && !BusyWith(Step(s, a).pc, Key(app))
    ensures Remembered(Step(s, a), LastWhy(done + [a], app), Key(app))
  {
    LastWhySnoc(done, a, app);
    if BusyWith(s.pc, Key(app)) {
      KeyInjective(app, s.pc.app);
      BusyEnds(s, a);
      RememberedWhenDone(s, done, a);
    } else {
      assert Remembered(s, LastWhy(done, app), Key(app));
      PeriodKept(s, a, Key(app));
    }
  }

  /** The reconciler stays with one application until it is idle or has crashed. */
  lemma BusyEnds(s: State, a: Action)
    requires Enabled(s, a) && s.pc != Idle && s.pc != Crashed
    ensures var pc := Step(s, a).pc;
            pc == Idle || pc == Crashed || pc.app == s.pc.app
  {
  }

  lemma HistoryOn(s: State, done: seq<Action>, a: Action)
    requires Inv(s) && History(s, done) && Enabled(s, a)
    ensures History(Step(s, a), done + [a])
  {
    PcRemembersOn(s, done, a);
    forall app | Step(s, a).pc != Crashed && Named(app) && !BusyWith(Step(s, a).pc, Key(app))
      ensures Remembered(Step(s, a), LastWhy(done + [a], app), Key(app))
    {
      RememberedOn(s, done, a, app);
    }
  }

  lemma {:induction false} RunHistory(s: State, done: seq<Action>, actions: seq<Action>)
    requires Inv(s) && History(s, done) && CanRun(s, actions)
    ensures History(Run(s, actions), done + actions)
    decreases actions
  {
    if actions == [] {
      assert done + actions == done;
    } else {
      StepKeeps(s, actions[0]);
      HistoryOn(s, done, actions[0]);
      RunHistory(Step(s, actions[0]), done + [actions[0]], actions[1..]);
      assert done + [actions[0]] + actions[1..] == done + actions;
    }
  }

  /** In every reachable state, for every application the reconciler is not busy with: a period is
      recorded exactly if the application was last begun in order to renew, and it is the period
      of that renewal. */
  lemma PeriodIsLastRenewed(actions: seq<Action>, app: App)
    requires CanRun(INIT, actions) && Named(app)
    requires var s := Run(INIT, actions); s.pc != Crashed && !BusyWith(s.pc, Key(app))
    ensures var s := Run(INIT, actions);
            var why := LastWhy(actions, app);
            && (Key(app) in s.periods <==> why.Some? && why.value.Renew?)
            && (Key(app) in s.periods ==> s.periods[Key(app)] == why.value.period)
  {
    RunHistory(INIT, [], actions);
    assert [] + actions == actions;
    assert Remembered(Run(INIT, actions), LastWhy(actions, app), Key(app));
  }

  /** A tick starts a check, during which the reconciler cannot stop the routine; when the check is
      done it waits again. */
  lemma CheckRuns(s: State, ch: Chan)
    requires Enabled(s, Tick(ch))
    ensures var t := Step(s, Tick(ch));
            && Live(t, ch) && !Enabled(t, Tick(ch)) && Enabled(t, CheckDone(ch))
            && (s.pc.Sending? && Registered(s, Key(s.pc.app), ch) ==> !Enabled(t, Advance))
            && Step(t, CheckDone(ch)) == s
  {
    assert Step(Step(s, Tick(ch)), CheckDone(ch)).routines == s.routines;
  }

  /** The steps that complete a pending send: the routine finishes its check, if it is in
      one, and then receives. */
  function Completion(s: State): seq<Action>
    requires s.pc.Sending? && Key(s.pc.app) in s.flags && Live(s, s.flags[Key(s.pc.app)])
  {
    var ch := s.flags[Key(s.pc.app)];
    if s.routines[ch].doing == Checking then [CheckDone(ch), Advance] else [Advance]
  }

  lemma SendCompletes(s: State)
    requires Inv(s) && s.pc.Sending?
    ensures Served(s, Key(s.pc.app))
    ensures s.routines[s.flags[Key(s.pc.app)]].app == s.pc.app
    ensures CanRun(s, Completion(s))
    ensures Run(s, Completion(s))
         == s.(pc := Stopping(s.pc.app, s.pc.why),
               routines := s.routines[s.flags[Key(s.pc.app)] := Routine(s.pc.app, Finished)])
  {
    var ch := s.flags[Key(s.pc.app)];
    assert Served(s, Key(s.pc.app));
    KeyInjective(s.routines[ch].app, s.pc.app);
    var t := if s.routines[ch].doing == Checking then Step(s, CheckDone(ch)) else s;
    RunOne(t, Advance);
    if s.routines[ch].doing == Checking {
      assert Completion(s)[1..] == [Advance];
    }
  }

  lemma RunOne(s: State, a: Action)
    requires Enabled(s, a)
    ensures CanRun(s, [a]) && Run(s, [a]) == Step(s, a)
  {
    assert [a][1..] == [];
  }

  /** Whenever the reconciler waits to send, the one live routine of that application holds
      exactly that channel; once it is out of the check it may be in, the send goes through:
      the routine is finished, the reconciler moves on, and nothing else has changed. */
  lemma SendIsReceived(actions: seq<Action>)
    requires CanRun(INIT, actions)
    ensures var s := Run(INIT, actions);
            s.pc.Sending? ==>
              && Served(s, Key(s.pc.app))
              && s.routines[s.flags[Key(s.pc.app)]].app == s.pc.app
              && CanRun(s, Completion(s))
              && Run(s, Completion(s))
                 == s.(pc := Stopping(s.pc.app, s.pc.why),
                       routines := s.routines[s.flags[Key(s.pc.app)] := Routine(s.pc.app, Finished)])
  {
    RunKeeps(INIT, actions);
    if Run(INIT, actions).pc.Sending? {
      SendCompletes(Run(INIT, actions));
    }
  }

  // ---------- what the reconciler accomplishes ----------

  lemma RunCons(s: State, a: Action, rest: seq<Action>)
    requires Enabled(s, a) && CanRun(Step(s, a), rest)
    ensures CanRun(s, [a] + rest) && Run(s, [a] + rest) == Run(Step(s, a), rest)
  {
    assert ([a] + rest)[1..] == rest;
  }

  lemma {:induction false} RunConcat(s: State, a: seq<Action>, b: seq<Action>)
    requires CanRun(s, a) && CanRun(Run(s, a), b)
    ensures CanRun(s, a + b) && Run(s, a + b) == Run(Run(s, a), b)
    decreases a
  {
    if a == [] {
      assert a + b == b;
    } else {
      assert (a + b)[1..] == a[1..] + b;
      RunConcat(Step(s, a[0]), a[1..], b);
    }
  }

  /** The reconciler's next `n` statements. */
  function Advances(n: nat): seq<Action> {
    seq(n, _ => Advance)
  }

  lemma RunAdvances(s: State, n: nat)
    requires Enabled(s, Advance) && CanRun(Step(s, Advance), Advances(n))
    ensures CanRun(s, Advances(n + 1)) && Run(s, Advances(n + 1)) == Run(Step(s, Advance), Advances(n))
  {
    RunCons(s, Advance, Advances(n));
    assert [Advance] + Advances(n) == Advances(n + 1);
  }

  /** With the application's routine finished, if it had one: its entries dropped. */
  function Dropped(s: State, app: App, pc: Pc): State {
    s.(flags := s.flags - {Key(app)}, tickers := s.tickers - {Key(app)}, periods := s.periods - {Key(app)},
       routines := if Key(app) in s.flags then s.routines[s.flags[Key(app)] := Routine(app, Finished)] else s.routines,
       pc := pc)
  }

  function AfterDelete(app: App, why: Why): Pc {
    if why.Renew? then MakeChan(app, why.period) else Returned(app)
  }

  lemma DropsAll(s: State, app: App, why: Why)
    requires s.pc == DropFlag(app, why)
    ensures CanRun(s, Advances(3))
    ensures Run(s, Advances(3)) == s.(flags := s.flags - {Key(app)}, tickers := s.tickers - {Key(app)},
                                      periods := s.periods - {Key(app)}, pc := AfterDelete(app, why))
  {
    var s1 := Step(s, Advance);
    var s2 := Step(s1, Advance);
    assert Advances(0) == [];
    RunAdvances(s2, 0);
    RunAdvances(s1, 1);
    RunAdvances(s, 2);
  }

  lemma SendsAndStops(s: State, app: App, why: Why) returns (acts: seq<Action>)
    requires Inv(s) && s.pc == Sending(app, why)
    ensures Key(app) in s.flags && CanRun(s, acts)
    ensures Run(s, acts) == s.(routines := s.routines[s.flags[Key(app)] := Routine(app, Finished)],
                               pc := DropFlag(app, why))
  {
    SendCompletes(s);
    var t := Run(s, Completion(s));
    RunOne(t, Advance);
    RunConcat(s, Completion(s), [Advance]);
    acts := Completion(s) + [Advance];
  }

  /** `deleteSyncFlag`, once begun, can always be brought to its end by the reconciler's own steps
      and, at most, the end of the check the routine is in; then the routine is finished, the
      entries are gone, and nothing else has changed. */
  lemma DeleteCompletes(s: State, app: App, why: Why) returns (acts: seq<Action>)
    requires Inv(s) && s.pc == Idle && Named(app)
    ensures CanRun(s, [Begin(app, why)] + acts)
    ensures Run(s, [Begin(app, why)] + acts) == Dropped(s, app, AfterDelete(app, why))
  {
    StepKeeps(s, Begin(app, why));
    var t := Step(s, Begin(app, why));
    var u := Step(t, Advance);
    StepKeeps(t, Advance);
    var first: seq<Action> := [];
    if Key(app) in s.flags {
      first := SendsAndStops(u, app, why);
    }
    var v := Run(u, first);
    DropsAll(v, app, why);
    RunConcat(u, first, Advances(3));
    RunCons(t, Advance, first + Advances(3));
    acts := [Advance] + (first + Advances(3));
    RunCons(s, Begin(app, why), acts);
  }

  /** Registration comes to its end too: with a new routine waiting under a ticker of the period
      asked for, or, if that is not a positive duration, with the crash of the ticker. */
  lemma RegisterCompletes(s: State, app: App, period: int)
    requires s.pc == MakeChan(app, period)
    ensures Nanoseconds(period) > 0 ==>
              && CanRun(s, Advances(4))
              && Run(s, Advances(4)) == State(Idle, s.flags[Key(app) := s.next],
                                              s.tickers[Key(app) := Nanoseconds(period)],
                                              s.periods[Key(app) := period],
                                              s.routines[s.next := Routine(app, Waiting)], s.next + 1)
    ensures Nanoseconds(period) <= 0 ==> CanRun(s, Advances(2)) && Run(s, Advances(2)).pc == Crashed
  {
    var s1 := Step(s, Advance);
    var s2 := Step(s1, Advance);
    assert Advances(0) == [];
    if Nanoseconds(period) > 0 {
      var s3 := Step(s2, Advance);
      RunAdvances(s3, 0);
      RunAdvances(s2, 1);
      RunAdvances(s1, 2);
      RunAdvances(s, 3);
    } else {
      RunAdvances(s1, 0);
      RunAdvances(s, 1);
    }
  }

  /** The application has been renewed, and nothing else has changed. */
  ghost predicate Renewed(s: State, t: State, app: App, period: int) {
    && t.pc == Idle
    && Key(app) in t.flags && Key(app) in t.tickers && Key(app) in t.periods
    && t.flags[Key(app)] in t.routines && t.routines[t.flags[Key(app)]] == Routine(app, Waiting)
    && t.tickers[Key(app)] == 1_000_000_000 * period && t.periods[Key(app)] == period
    && t.flags - {Key(app)} == s.flags - {Key(app)}
    && t.tickers - {Key(app)} == s.tickers - {Key(app)}
    && t.periods - {Key(app)} == s.periods - {Key(app)}
    && forall ch | Live(s, ch) && s.routines[ch].app != app :: ch in t.routines && t.routines[ch] == s.routines[ch]
  }

  lemma PutBack<V>(m: map<string, V>, key: string, value: V)
    ensures (m - {key})[key := value] - {key} == m - {key}
  {
  }

  /** Other applications' live routines are neither the one that ends nor the one that begins. */
  lemma OthersApart(s: State, app: App, ch: Chan)
    requires Inv(s) && s.pc == Idle && Named(app) && Live(s, ch) && s.routines[ch].app != app
    ensures ch < s.next && (Key(app) in s.flags ==> s.flags[Key(app)] != ch)
  {
    KeyInjective(s.routines[ch].app, app);
    if Key(app) in s.flags {
      assert Served(s, Key(app));
    }
  }

  lemma RenewedIs(s: State, t: State, app: App, period: int)
    requires Inv(s) && s.pc == Idle && Named(app) && 1 <= period <= 9_223_372_036
    requires var u := Dropped(s, app, Idle);
             t == State(Idle, u.flags[Key(app) := s.next], u.tickers[Key(app) := Nanoseconds(period)],
                        u.periods[Key(app) := period], u.routines[s.next := Routine(app, Waiting)], s.next + 1)
    ensures Renewed(s, t, app, period)
  {
    NanosecondsAre(period);
    PutBack(s.flags, Key(app), s.next);
    PutBack(s.tickers, Key(app), Nanoseconds(period));
    PutBack(s.periods, Key(app), period);
    forall ch | Live(s, ch) && s.routines[ch].app != app
      ensures ch in t.routines && t.routines[ch] == s.routines[ch]
    {
      OthersApart(s, app, ch);
    }
  }

  /** In every reachable state: renewing an application can be brought to its end, with one live
      routine for it, waiting, at the period asked for, and all other applications' as they were. */
  lemma RenewCompletes(before: seq<Action>, app: App, period: int) returns (acts: seq<Action>)
    requires CanRun(INIT, before) && Run(INIT, before).pc == Idle && Named(app)
    requires 1 <= period <= 9_223_372_036
    ensures CanRun(Run(INIT, before), [Begin(app, Renew(period))] + acts)
    ensures var s := Run(INIT, before);
            Renewed(s, Run(s, [Begin(app, Renew(period))] + acts), app, period)
  {
    RunKeeps(INIT, before);
    var s := Run(INIT, before);
    var begin := [Begin(app, Renew(period))];
    var first := DeleteCompletes(s, app, Renew(period));
    ThenRegisters(s, begin + first, app, period);
    acts := first + Advances(4);
    assert begin + first + Advances(4) == begin + acts;
  }

  lemma ThenRegisters(s: State, begun: seq<Action>, app: App, period: int)
    requires Inv(s) && s.pc == Idle && Named(app) && 1 <= period <= 9_223_372_036
    requires CanRun(s, begun) && Run(s, begun) == Dropped(s, app, MakeChan(app, period))
    ensures CanRun(s, begun + Advances(4))
    ensures Renewed(s, Run(s, begun + Advances(4)), app, period)
  {
    var u := Run(s, begun);
    NanosecondsAre(period);
    RegisterCompletes(u, app, period);
    RunConcat(s, begun, Advances(4));
    RenewedIs(s, Run(u, Advances(4)), app, period);
  }

  // ---------- after deleteSyncFlag ----------

  /** No live routine, and none on its way. */
  ghost predicate Gone(s: State, app: App) {
    && (forall ch | Live(s, ch) :: s.routines[ch].app != app)
    && !((s.pc.MakeTicker? || s.pc.MakePeriod? || s.pc.Spawning?) && s.pc.app == app)
  }

  /** The step that registers the application anew. */
  predicate Registers(s: State, a: Action, app: App) {
    a == Advance && s.pc.MakeChan? && s.pc.app == app
  }

  /** A step of a routine running its periodic check for the application. */
  predicate Checks(s: State, a: Action, app: App) {
    (a.Tick? || a.CheckDone?) && a.ch in s.routines && s.routines[a.ch].app == app
  }

  ghost predicate NeverAlong(s: State, actions: seq<Action>, what: (State, Action) -> bool)
    requires CanRun(s, actions)
    decreases actions
  {
    actions != [] ==> !what(s, actions[0]) && NeverAlong(Step(s, actions[0]), actions[1..], what)
  }

  /** As `deleteSyncFlag` returns, the application's routine is gone. */
  lemma GoneOnReturn(s: State)
    requires Inv(s) && (s.pc.Returned? || s.pc.MakeChan?)
    ensures Gone(s, s.pc.app)
  {
  }

  /** A routine that is live was so before, or has just been spawned. */
  lemma LiveFrom(s: State, a: Action, ch: Chan)
    requires Inv(s) && Enabled(s, a) && Live(Step(s, a), ch)
    ensures if ch in s.routines && Live(s, ch) then Step(s, a).routines[ch].app == s.routines[ch].app
            else a.Advance? && s.pc.Spawning? && Step(s, a).routines[ch].app == s.pc.app
  {
  }

  lemma GoneKept(s: State, a: Action, app: App)
    requires Inv(s) && Enabled(s, a) && Gone(s, app)
    requires !Registers(s, a, app)
    ensures Gone(Step(s, a), app)
  {
    forall ch | Live(Step(s, a), ch)
      ensures Step(s, a).routines[ch].app != app
    {
      LiveFrom(s, a, ch);
    }
  }

  lemma GoneChecksNot(s: State, a: Action, app: App)
    requires Enabled(s, a) && Gone(s, app)
    ensures !Checks(s, a, app)
  {
    if Checks(s, a, app) {
      assert Live(s, a.ch);
    }
  }

  lemma {:induction false} NoCheckWhileGone(s: State, app: App, actions: seq<Action>)
    requires Inv(s) && Gone(s, app) && CanRun(s, actions)
    requires NeverAlong(s, actions, (t, a) => Registers(t, a, app))
    ensures NeverAlong(s, actions, (t, a) => Checks(t, a, app))
    decreases actions
  {
    if actions != [] {
      GoneKept(s, actions[0], app);
      GoneChecksNot(s, actions[0], app);
      StepKeeps(s, actions[0]);
      NoCheckWhileGone(Step(s, actions[0]), app, actions[1..]);
    }
  }

  /** Once `deleteSyncFlag` has returned, in whatever run, no later step is part of a periodic
      check for that application until it is registered again. */
  lemma NoCheckUntilRegistered(before: seq<Action>, after: seq<Action>)
    requires CanRun(INIT, before)
    requires var s := Run(INIT, before);
             && (s.pc.Returned? || s.pc.MakeChan?)
             && CanRun(s, after)
             && NeverAlong(s, after, (t, a) => Registers(t, a, s.pc.app))
    ensures var s := Run(INIT, before);
            NeverAlong(s, after, (t, a) => Checks(t, a, s.pc.app))
  {
    RunKeeps(INIT, before);
    var s := Run(INIT, before);
    GoneOnReturn(s);
    NoCheckWhileGone(s, s.pc.app, after);
  }
}
