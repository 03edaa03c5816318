/** The operator's configuration: variables set from a ConfigMap, behind a filter that skips
    resource versions it has just seen. */
module ConfigVars {
  import opened Wrappers

  // ---------- getVars ----------

  datatype Value = StringVal(s: string) | IntVal(n: int) | BoolVal(b: bool)

  datatype CfgType = CfgString | CfgInt | CfgBool

  /** One entry of the table: the type, the variable pointed to if any, and the default. */
  datatype OperatorConfig = OperatorConfig(cfgType: CfgType, ptr: Option<string>, default: Value)

  /** The number and boolean parsers of the standard library. */
  datatype Parsers = Parsers(atoi: string -> Option<int>, parseBool: string -> Option<bool>)

  /** What an entry assigns, if it assigns anything: text that does not parse leaves the
      variable as it was. */
  function Assigned(ps: Parsers, data: map<string, string>, key: string, c: OperatorConfig): Option<Value> {
    if key !in data then Some(c.default)
    else
      match c.cfgType
      case CfgString => Some(StringVal(data[key]))
      case CfgInt =>
        (match ps.atoi(data[key])
         case None => None
         case Some(i) => Some(IntVal(i)))
      case CfgBool =>
        (match ps.parseBool(data[key])
         case None => None
         case Some(b) => Some(BoolVal(b)))
  }

  /** A key that is missing gives the default; text gives a value of the entry's type, or none. */
  lemma AssignedIs(ps: Parsers, data: map<string, string>, key: string, c: OperatorConfig)
    ensures var a := Assigned(ps, data, key, c);
            && (key !in data ==> a == Some(c.default))
            && (key in data && c.cfgType == CfgString ==> a == Some(StringVal(data[key])))
            && (key in data && c.cfgType != CfgString && a.Some? ==>
                  if c.cfgType == CfgInt then a.value.IntVal? && ps.atoi(data[key]) == Some(a.value.n)
                  else a.value.BoolVal? && ps.parseBool(data[key]) == Some(a.value.b))
            && (a.None? <==>
                  && key in data
                  && ((c.cfgType == CfgInt && ps.atoi(data[key]).None?)
                      || (c.cfgType == CfgBool && ps.parseBool(data[key]).None?)))
  {
  }

  /** The entry sets this variable. */
  predicate Sets(ps: Parsers, data: map<string, string>, table: map<string, OperatorConfig>, key: string, x: string) {
    key in table && table[key].ptr == Some(x) && Assigned(ps, data, key, table[key]).Some?
  }

  predicate DistinctPtrs(table: map<string, OperatorConfig>) {
    forall k, l | k in table && l in table && table[k].ptr.Some? && table[k].ptr == table[l].ptr :: k == l
  }

  /** Every variable that an entry sets has that entry's value; all others are as before. */
  ghost predicate SetFrom(ps: Parsers, data: map<string, string>, table: map<string, OperatorConfig>,
                          before: map<string, Value>, after: map<string, Value>) {
    && (forall k, x | Sets(ps, data, table, k, x) ::
          x in after && after[x] == Assigned(ps, data, k, table[k]).value)
    && (forall x | forall k :: !Sets(ps, data, table, k, x) ::
          (x in before <==> x in after) && (x in before ==> after[x] == before[x]))
  }

  /** Some entry sets the variable to this value. */
  ghost predicate SetBySome(ps: Parsers, data: map<string, string>, table: map<string, OperatorConfig>,
                            x: string, v: Value) {
    exists k :: Sets(ps, data, table, k, x) && v == Assigned(ps, data, k, table[k]).value
  }

  /** Every variable that some entry sets has the value of such an entry; all others are as
      before. */
  ghost predicate SetFromSome(ps: Parsers, data: map<string, string>, table: map<string, OperatorConfig>,
                              before: map<string, Value>, after: map<string, Value>) {
    && (forall k, x | Sets(ps, data, table, k, x) :: x in after && SetBySome(ps, data, table, x, after[x]))
    && (forall x | forall k :: !Sets(ps, data, table, k, x) ::
          (x in before <==> x in after) && (x in before ==> after[x] == before[x]))
  }

  /** Where no two entries point to one variable, the order of the entries makes no difference. */
  lemma DistinctSetFrom(ps: Parsers, data: map<string, string>, table: map<string, OperatorConfig>,
                        before: map<string, Value>, after: map<string, Value>)
    requires DistinctPtrs(table) && SetFromSome(ps, data, table, before, after)
    ensures SetFrom(ps, data, table, before, after)
  {
    forall k, x | Sets(ps, data, table, k, x)
      ensures x in after && after[x] == Assigned(ps, data, k, table[k]).value
    {
      var l :| Sets(ps, data, table, l, x) && after[x] == Assigned(ps, data, l, table[l]).value;
      assert k == l;
    }
  }

  // ---------- the controller's configuration ----------

  datatype Settings = Settings(externalHostName: string, exposeMode: string, ingressClass: string, ingressHost: string)

  const UNSET := Settings("", "", "", "")

  function Or(data: map<string, string>, key: string, default: string): string {
    if key in data then data[key] else default
  }

  /** The settings as a function of the ConfigMap alone. */
  function SettingsOf(data: map<string, string>): Settings {
    Settings(Or(data, "externalHostName", ""), Or(data, "exposeMode", "Ingress"),
             Or(data, "ingressClass", ""), Or(data, "ingressHost", ""))
  }

  function ControllerTable(): map<string, OperatorConfig> {
    map["externalHostName" := OperatorConfig(CfgString, Some("ExternalHostName"), StringVal("")),
        "exposeMode" := OperatorConfig(CfgString, Some("ExposeMode"), StringVal("Ingress")),
        "ingressClass" := OperatorConfig(CfgString, Some("IngressClass"), StringVal("")),
        "ingressHost" := OperatorConfig(CfgString, Some("IngressHost"), StringVal(""))]
  }

  function SettingsIn(vars: map<string, Value>): Option<Settings> {
    if "ExternalHostName" in vars && vars["ExternalHostName"].StringVal?
       && "ExposeMode" in vars && vars["ExposeMode"].StringVal?
       && "IngressClass" in vars && vars["IngressClass"].StringVal?
       && "IngressHost" in vars && vars["IngressHost"].StringVal?
    then Some(Settings(vars["ExternalHostName"].s, vars["ExposeMode"].s, vars["IngressClass"].s, vars["IngressHost"].s))
    else None
  }

  lemma SettingsSet(ps: Parsers, data: map<string, string>, before: map<string, Value>, after: map<string, Value>)
    requires SetFrom(ps, data, ControllerTable(), before, after)
    ensures SettingsIn(after) == Some(SettingsOf(data))
  {
    assert Sets(ps, data, ControllerTable(), "externalHostName", "ExternalHostName");
    assert Sets(ps, data, ControllerTable(), "exposeMode", "ExposeMode");
    assert Sets(ps, data, ControllerTable(), "ingressClass", "IngressClass");
    assert Sets(ps, data, ControllerTable(), "ingressHost", "IngressHost");
  }

  /** The controller's table makes the four settings a function of the ConfigMap, in whatever order
      its entries come. */
  lemma TableSetsSettings(ps: Parsers, data: map<string, string>, before: map<string, Value>, after: map<string, Value>)
    requires SetFromSome(ps, data, ControllerTable(), before, after)
    ensures SettingsIn(after) == Some(SettingsOf(data))
  {
    DistinctSetFrom(ps, data, ControllerTable(), before, after);
    SettingsSet(ps, data, before, after);
  }

  /** Each setting is the ConfigMap's text for it; of those it does not hold, the mode is "Ingress"
      and the others are empty. */
  lemma SettingsAre(data: map<string, string>)
    ensures var s := SettingsOf(data);
            && s.externalHostName == (if "externalHostName" in data then data["externalHostName"] else "")
            && s.exposeMode == (if "exposeMode" in data then data["exposeMode"] else "Ingress")
            && s.ingressClass == (if "ingressClass" in data then data["ingressClass"] else "")
            && s.ingressHost == (if "ingressHost" in data then data["ingressHost"] else "")
  {
  }

  datatype Chan = Chan(len: nat, cap: nat)

  class Configs {
    const parsers: Parsers
    var vars: map<string, Value>
    var initiated: bool
    var initCh: Chan
    var updateChans: seq<Chan>
    ghost var initSent: nat

    constructor (parsers: Parsers)
      ensures this.parsers == parsers && vars == map[] && !initiated && initCh == Chan(0, 1)
      ensures updateChans == [] && initSent == 0
    {
      this.parsers := parsers;
      vars, initiated, initCh, updateChans, initSent := map[], false, Chan(0, 1), [], 0;
    }

    /** The table is a Go map: its entries come in any order, and the last to set a variable wins. */
    method GetVars(data: map<string, string>, table: map<string, OperatorConfig>)
      modifies this`vars
      ensures SetFromSome(parsers, data, table, old(vars), vars)
    {
      var rest := table.Keys;
      while rest != {}
        invariant rest <= table.Keys
        invariant forall k, x | Sets(parsers, data, table, k, x) && k !in rest ::
                    x in vars && SetBySome(parsers, data, table, x, vars[x])
        invariant forall x | forall k :: Sets(parsers, data, table, k, x) ==> k in rest ::
                    (x in old(vars) <==> x in vars) && (x in old(vars) ==> vars[x] == old(vars)[x])
        decreases |rest|
      {
        var key :| key in rest;
        rest := rest - {key};
        var c := table[key];
        if c.ptr == None {
          continue;
        }
        var v := Assigned(parsers, data, key, c);
        if v.Some? {
          assert Sets(parsers, data, table, key, c.ptr.value);
          vars := vars[c.ptr.value := v.value];
        }
      }
    }

    /** Poke every registered channel, never blocking. */
    method Notify()
      modifies this`updateChans
      ensures |updateChans| == |old(updateChans)|
      ensures forall i | 0 <= i < |updateChans| ::
                var before := old(updateChans)[i];
                updateChans[i] == Chan(before.len + (if before.len < before.cap then 1 else 0), before.cap)
    {
      var i := 0;
      while i < |updateChans|
        invariant 0 <= i <= |updateChans| == |old(updateChans)|
        invariant forall j | 0 <= j < i ::
                    var before := old(updateChans)[j];
                    updateChans[j] == Chan(before.len + (if before.len < before.cap then 1 else 0), before.cap)
        invariant forall j | i <= j < |updateChans| :: updateChans[j] == old(updateChans)[j]
      {
        var ch := updateChans[i];
        if ch.len < ch.cap {
          updateChans := updateChans[i := ch.(len := ch.len + 1)];
        }
        i := i + 1;
      }
    }

    method SetSettings(data: map<string, string>)
      modifies this`vars
      ensures SettingsIn(vars) == Some(SettingsOf(data))
    {
      GetVars(data, ControllerTable());
      TableSetsSettings(parsers, data, old(vars), vars);
    }

    /** The handler of the controller's ConfigMap: assign, announce the first time, poke all. */
    method ApplyControllerConfigChange(data: map<string, string>)
      modifies this
      ensures SettingsIn(vars) == Some(SettingsOf(data))
      ensures initiated
      ensures initCh.cap == old(initCh).cap && initSent - old(initSent) == initCh.len - old(initCh).len
      ensures initSent - old(initSent) == if !old(initiated) && old(initCh).len < old(initCh).cap then 1 else 0
      ensures |updateChans| == |old(updateChans)|
      ensures forall i | 0 <= i < |updateChans| ::
                var before := old(updateChans)[i];
                updateChans[i] == Chan(before.len + (if before.len < before.cap then 1 else 0), before.cap)
      ensures forall i | 0 <= i < |updateChans| && old(updateChans)[i].len <= old(updateChans)[i].cap == 1 ::
                updateChans[i] == Chan(1, 1)
    {
      SetSettings(data);
      if !initiated {
        initiated := true;
        if initCh.len < initCh.cap {
          initCh := initCh.(len := initCh.len + 1);
          initSent := initSent + 1;
        }
      }
      Notify();
    }
  }

  // ---------- the filter ----------

  datatype Event = Event(name: string, version: string, data: map<string, string>)

  const CONFIG_MAP_NAME_CD_CONFIG := "cd-config"

  /** What the reconciler has come to: the last version seen of each ConfigMap, the settings in
      force, and how often the start-up token has been sent. */
  datatype Seen = Seen(last: map<string, string>, settings: Settings, initiated: bool, sent: nat)

  const FRESH := Seen(map[], UNSET, false, 0)

  function LastVersion(last: map<string, string>, name: string): string {
    if name in last then last[name] else ""
  }

  /** One event, with the handler registered or not yet. */
  function Handle(r: Seen, registered: bool, e: Event): Seen {
    if e.version == LastVersion(r.last, e.name) then r
    else
      var noted := r.(last := r.last[e.name := e.version]);
      if e.name != CONFIG_MAP_NAME_CD_CONFIG || !registered then noted
      else noted.(settings := SettingsOf(e.data), initiated := true, sent := if r.initiated then r.sent else r.sent + 1)
  }

  /** A whole history, whose first `k` events come before the handler is registered. */
  function HandleFrom(k: nat, es: seq<Event>): Seen {
    if es == [] then FRESH else Handle(HandleFrom(k, es[..|es| - 1]), k < |es|, es[|es| - 1])
  }

  /** Without the filter, and registered from the start: every event of the controller's
      ConfigMap is applied. */
  function ApplyAll(settings: Settings, es: seq<Event>): Settings {
    if es == [] then settings
    else
      var e := es[|es| - 1];
      if e.name == CONFIG_MAP_NAME_CD_CONFIG then SettingsOf(e.data) else ApplyAll(settings, es[..|es| - 1])
  }

  /** The last event of a name. */
  function LastOf(es: seq<Event>, name: string): Option<Event> {
    if es == [] then None
    else if es[|es| - 1].name == name then Some(es[|es| - 1])
    else LastOf(es[..|es| - 1], name)
  }

  /** The version a name last had in the history, empty if it has not occurred. */
  function VersionIn(es: seq<Event>, name: string): string {
    var f := LastOf(es, name);
    if f.Some? then f.value.version else ""
  }

  /** The event comes once the handler is there, with another version than the one before it. */
  predicate Taken(k: nat, es: seq<Event>, i: nat)
    requires i < |es|
  {
    k <= i && es[i].name == "cd-config" && es[i].version != VersionIn(es[..i], "cd-config")
  }

  /** Whatever versions there are, the reconciler remembers the last of each name. */
  lemma {:induction false} LastVersionIs(k: nat, es: seq<Event>, name: string)
    ensures LastVersion(HandleFrom(k, es).last, name) == VersionIn(es, name)
  {
    if es != [] {
      LastVersionIs(k, es[..|es| - 1], name);
      LastVersionIs(k, es[..|es| - 1], es[|es| - 1].name);
    }
  }

  /** What one more event does, in terms of the history alone. */
  lemma HandleLast(k: nat, es: seq<Event>)
    requires es != []
    ensures var n := |es| - 1; var pre, now := HandleFrom(k, es[..n]), HandleFrom(k, es);
            && now.settings == (if Taken(k, es, n) then SettingsOf(es[n].data) else pre.settings)
            && now.initiated == (pre.initiated || Taken(k, es, n))
            && now.sent == (if Taken(k, es, n) && !pre.initiated then pre.sent + 1 else pre.sent)
  {
    LastVersionIs(k, es[..|es| - 1], es[|es| - 1].name);
  }

  lemma TakenInPrefix(k: nat, es: seq<Event>, n: nat, i: nat)
    requires i < n <= |es|
    ensures Taken(k, es[..n], i) == Taken(k, es, i)
  {
    assert es[..n][..i] == es[..i];
  }

  /** Over every history, and whenever the handler is registered, the start-up token is sent at
      most once; and it is sent exactly when some event of the ConfigMap comes with a handler
      there and a version different from the event before it. Start-up waits for that token. */
  lemma {:induction false} SentIff(k: nat, es: seq<Event>)
    ensures var r := HandleFrom(k, es);
            && (r.initiated <==> exists i: nat :: i < |es| && Taken(k, es, i))
            && r.sent == if r.initiated then 1 else 0
  {
    if es != [] {
      var n := |es| - 1;
      SentIff(k, es[..n]);
      HandleLast(k, es);
      forall i: nat | i < n
        ensures Taken(k, es[..n], i) == Taken(k, es, i)
      {
        TakenInPrefix(k, es, n, i);
      }
      if i: nat :| i < n && Taken(k, es[..n], i) {
        assert Taken(k, es, i);
      }
    }
  }

  /** The settings are as if every event so far had been applied. */
  predicate UpToDate(k: nat, es: seq<Event>) {
    HandleFrom(k, es).settings == ApplyAll(UNSET, es)
  }

  /** An event of the ConfigMap that is passed over, though it would have changed the settings. */
  predicate Missed(k: nat, es: seq<Event>, i: nat)
    requires i < |es|
  {
    && es[i].name == CONFIG_MAP_NAME_CD_CONFIG && !Taken(k, es, i)
    && SettingsOf(es[i].data) != ApplyAll(UNSET, es[..i])
  }

  ghost predicate AlwaysUpToDate(k: nat, es: seq<Event>) {
    forall n: nat | n <= |es| :: UpToDate(k, es[..n])
  }

  ghost predicate NoneMissed(k: nat, es: seq<Event>) {
    forall i: nat | i < |es| :: !Missed(k, es, i)
  }

  lemma AlwaysUpToDateLast(k: nat, es: seq<Event>)
    requires es != []
    ensures AlwaysUpToDate(k, es) <==> AlwaysUpToDate(k, es[..|es| - 1]) && UpToDate(k, es)
  {
    var pre := es[..|es| - 1];
    assert es[..|es|] == es;
    assert forall m: nat | m < |es| :: pre[..m] == es[..m];
  }

  lemma NoneMissedLast(k: nat, es: seq<Event>)
    requires es != []
    ensures NoneMissed(k, es) <==> NoneMissed(k, es[..|es| - 1]) && !Missed(k, es, |es| - 1)
  {
    var n := |es| - 1;
    forall i: nat | i < n
      ensures Missed(k, es[..n], i) == Missed(k, es, i)
    {
      TakenInPrefix(k, es, n, i);
      assert es[..n][..i] == es[..i];
    }
  }

  lemma UpToDateLast(k: nat, es: seq<Event>)
    requires es != [] && UpToDate(k, es[..|es| - 1])
    ensures UpToDate(k, es) <==> !Missed(k, es, |es| - 1)
  {
    HandleLast(k, es);
  }

  /** Over every history, and whenever the handler is registered, the settings are up to date
      all along exactly when no event that is passed over would have changed them. */
  lemma {:induction false} AlwaysUpToDateIff(k: nat, es: seq<Event>)
    ensures AlwaysUpToDate(k, es) <==> NoneMissed(k, es)
  {
    if es == [] {
      assert UpToDate(k, []);
    } else {
      var pre := es[..|es| - 1];
      AlwaysUpToDateIff(k, pre);
      AlwaysUpToDateLast(k, es);
      NoneMissedLast(k, es);
      if AlwaysUpToDate(k, pre) {
        assert pre[..|pre|] == pre;
        UpToDateLast(k, es);
      }
    }
  }

  /** Versions are not empty, and where an event repeats the version its name last had, it
      repeats the data too. */
  predicate Faithful(es: seq<Event>) {
    es != [] ==>
      var e, pre := es[|es| - 1], es[..|es| - 1];
      var f := LastOf(pre, e.name);
      && Faithful(pre)
      && e.version != ""
      && (f.Some? && f.value.version == e.version ==> f.value.data == e.data)
  }

  lemma {:induction false} ApplyAllIsLast(settings: Settings, es: seq<Event>)
    ensures var f := LastOf(es, CONFIG_MAP_NAME_CD_CONFIG);
            ApplyAll(settings, es) == if f.Some? then SettingsOf(f.value.data) else settings
  {
    if es != [] {
      ApplyAllIsLast(settings, es[..|es| - 1]);
    }
  }

  /** With versions as the API server gives them, and the handler there before the ConfigMap's
      first event, the filter is transparent: the settings end as if every event had been
      applied, and the start-up token is sent once if the ConfigMap is seen at all. */
  lemma {:induction false} FilterTransparent(k: nat, es: seq<Event>)
    requires Faithful(es)
    requires forall i | 0 <= i < |es| && i < k :: es[i].name != CONFIG_MAP_NAME_CD_CONFIG
    ensures var r := HandleFrom(k, es);
            && r.settings == ApplyAll(UNSET, es)
            && r.initiated == LastOf(es, CONFIG_MAP_NAME_CD_CONFIG).Some?
            && r.sent == if r.initiated then 1 else 0
  {
    if es != [] {
      var pre, e := es[..|es| - 1], es[|es| - 1];
      FilterTransparent(k, pre);
      HandleLast(k, es);
      ApplyAllIsLast(UNSET, pre);
    }
  }

  lemma {:induction false} NothingTaken(k: nat, es: seq<Event>)
    requires forall i: nat | i < |es| :: !Taken(k, es, i)
    ensures HandleFrom(k, es).settings == UNSET && HandleFrom(k, es).sent == 0
  {
    if es != [] {
      var n := |es| - 1;
      forall i: nat | i < n
        ensures !Taken(k, es[..n], i)
      {
        TakenInPrefix(k, es, n, i);
      }
      NothingTaken(k, es[..n]);
      HandleLast(k, es);
      SentIff(k, es);
    }
  }

  lemma {:induction false} VersionInAll(es: seq<Event>, name: string, version: string, from: nat)
    requires from < |es| && es[from].name == name
    requires forall i | from <= i < |es| && es[i].name == name :: es[i].version == version
    ensures VersionIn(es, name) == version
  {
    if from < |es| - 1 && es[|es| - 1].name != name {
      VersionInAll(es[..|es| - 1], name, version, from);
    }
  }

  /** An event that comes before the handler is lost for good if the ConfigMap keeps that
      version: in any history that goes on so the settings stay unset, and start-up, which waits
      for the token, never gets it. */
  lemma EarlyEventLost(k: nat, es: seq<Event>, early: nat)
    requires early < |es| && early < k && es[early].name == CONFIG_MAP_NAME_CD_CONFIG
    requires forall i | early < i < |es| && es[i].name == CONFIG_MAP_NAME_CD_CONFIG ::
               es[i].version == es[early].version
    ensures HandleFrom(k, es).settings == UNSET && HandleFrom(k, es).sent == 0
  {
    forall i: nat | i < |es|
      ensures !Taken(k, es, i)
    {
      if early < i && es[i].name == CONFIG_MAP_NAME_CD_CONFIG {
        VersionInAll(es[..i], CONFIG_MAP_NAME_CD_CONFIG, es[early].version, early);
      }
    }
    NothingTaken(k, es);
  }

  /** So is a ConfigMap whose versions are all empty: its first event is taken for a repeat. */
  lemma EmptyVersionIgnored(k: nat, es: seq<Event>)
    requires forall e | e in es && e.name == CONFIG_MAP_NAME_CD_CONFIG :: e.version == ""
    ensures HandleFrom(k, es).settings == UNSET && HandleFrom(k, es).sent == 0
  {
    forall i: nat | i < |es|
      ensures !Taken(k, es, i)
    {
      LastOfIn(es[..i], CONFIG_MAP_NAME_CD_CONFIG);
    }
    NothingTaken(k, es);
  }

  lemma {:induction false} LastOfIn(es: seq<Event>, name: string)
    ensures var f := LastOf(es, name); f.Some? ==> f.value in es && f.value.name == name
  {
    if es != [] {
      LastOfIn(es[..|es| - 1], name);
    }
  }

  class ConfigReconciler {
    const configs: Configs
    var lastResourceVersions: map<string, string>
    var handlers: set<string>

    /** The handler registered for a ConfigMap is always the controller's. */
    constructor (configs: Configs)
      ensures this.configs == configs && lastResourceVersions == map[] && handlers == {}
    {
      this.configs, lastResourceVersions, handlers := configs, map[], {};
    }

    /** Nothing has been seen or set yet. */
    ghost predicate New()
      reads this, configs
    {
      && lastResourceVersions == map[] && handlers == {}
      && configs.vars == map[] && !configs.initiated && configs.initCh == Chan(0, 1) && configs.initSent == 0
    }

    ghost predicate Shows(r: Seen)
      reads this, configs
    {
      && lastResourceVersions == r.last
      && (if SettingsIn(configs.vars).Some? then SettingsIn(configs.vars).value else UNSET) == r.settings
      && configs.initiated == r.initiated
      && configs.initSent == r.sent
      && (!configs.initiated ==> configs.initCh.len < configs.initCh.cap)
    }

    method Add(name: string)
      modifies this`handlers
      ensures handlers == old(handlers) + {name}
    {
      handlers := handlers + {name};
    }

    method Reconcile(cm: Option<Event>, ghost r: Seen)
      requires Shows(r) && handlers <= {CONFIG_MAP_NAME_CD_CONFIG}
      modifies this`lastResourceVersions, configs
      ensures configs.initCh.cap == old(configs.initCh).cap
      ensures configs.initCh.len - old(configs.initCh).len == configs.initSent - old(configs.initSent)
      ensures cm.None? ==> Shows(r)
      ensures cm.Some? ==> Shows(Handle(r, CONFIG_MAP_NAME_CD_CONFIG in handlers, cm.value))
    {
      if cm.None? {
        return;
      }
      var e := cm.value;
      if e.version == LastVersion(lastResourceVersions, e.name) {
        return;
      }
      lastResourceVersions := lastResourceVersions[e.name := e.version];
      if e.name !in handlers {
        return;
      }
      configs.ApplyControllerConfigChange(e.data);
    }

    /** The watch over a whole history, with the handler added after `k` events: the settings and
        the start-up token come out as the history says. */
    method Watch(es: seq<Event>, k: nat)
      requires New()
      modifies this`lastResourceVersions, this`handlers, configs
      ensures Shows(HandleFrom(k, es))
      ensures configs.initSent == if exists i: nat :: i < |es| && Taken(k, es, i) then 1 else 0
      ensures configs.initCh == Chan(configs.initSent, 1)
    {
      assert es[..0] == [] && SettingsIn(configs.vars).None?;
      var i := 0;
      while i < |es|
        invariant 0 <= i <= |es|
        invariant handlers == if k < i then {CONFIG_MAP_NAME_CD_CONFIG} else {}
        invariant Shows(HandleFrom(k, es[..i])) && configs.initCh == Chan(configs.initSent, 1)
      {
        if i == k {
          Add(CONFIG_MAP_NAME_CD_CONFIG);
        }
        assert es[..i + 1][..i] == es[..i];
        Reconcile(Some(es[i]), HandleFrom(k, es[..i]));
        i := i + 1;
      }
      assert es[..i] == es;
      SentIff(k, es);
    }
  }
}
