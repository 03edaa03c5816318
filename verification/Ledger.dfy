/** Applications, the objects they deploy, and the records that remember them. */
module Ledger {
  import opened Strings

  datatype App = App(name: string, ns: string)

  datatype ObjKey = ObjKey(apiVersion: string, kind: string, ns: string, name: string)

  datatype RecKey = RecKey(ns: string, name: string)

  datatype Record = Record(labelValue: string, application: string, spec: ObjKey)

  /** One application laying claim to one object. */
  datatype Claim = Claim(app: App, key: ObjKey)

  function Label(app: App): string {
    app.name + "-" + app.ns
  }

  function RecordName(app: App, key: ObjKey): string {
    ToLower(app.name + "-" + key.kind + "-" + key.name + "-" + key.ns)
  }

  function Rk(c: Claim): RecKey {
    RecKey(c.app.ns, RecordName(c.app, c.key))
  }

  function RecordOf(c: Claim): Record {
    Record(Label(c.app), c.app.name, c.key)
  }

  /** The standing hypothesis on everything the manifests of a run may name: one
      application per label, and no two claims sharing a record. */
  ghost predicate Separate(claims: set<Claim>) {
    && (forall c, d | c in claims && d in claims && Label(c.app) == Label(d.app) :: c.app == d.app)
    && (forall c, d | c in claims && d in claims && Rk(c) == Rk(d) :: c == d)
  }

  // ---------- when two joined strings coincide ----------

  /** `a` and '-' begin `b`, and `x` makes up for what `b` has beyond that. */
  predicate Overhangs(a: string, x: string, b: string, y: string) {
    a + "-" <= b && x == b[|a| + 1..] + "-" + y
  }

  /** `a`-`x` and `b`-`y` are the same because their parts are, or because one of the first
      parts runs over into the other's second part. */
  predicate Coincide(a: string, x: string, b: string, y: string) {
    (a == b && x == y) || Overhangs(a, x, b, y) || Overhangs(b, y, a, x)
  }

  lemma OverhangJoins(a: string, x: string, b: string, y: string)
    requires Overhangs(a, x, b, y)
    ensures a + "-" + x == b + "-" + y
  {
    assert b == a + "-" + b[|a| + 1..];
  }

  lemma LongerOverhangs(a: string, x: string, b: string, y: string)
    requires a + "-" + x == b + "-" + y && |a| < |b|
    ensures Overhangs(a, x, b, y)
  {
    var s := a + "-" + x;
    assert s[..|a| + 1] == a + "-" && s[..|a| + 1] == b[..|a| + 1];
    assert s[|a| + 1..] == x && s[|a| + 1..] == b[|a| + 1..] + "-" + y;
  }

  /** Joining with '-' is ambiguous exactly where one first part overhangs the other. */
  lemma JoinsEqualIff(a: string, x: string, b: string, y: string)
    ensures a + "-" + x == b + "-" + y <==> Coincide(a, x, b, y)
  {
    if Overhangs(a, x, b, y) {
      OverhangJoins(a, x, b, y);
    }
    if Overhangs(b, y, a, x) {
      OverhangJoins(b, y, a, x);
    }
    if a + "-" + x == b + "-" + y {
      if |a| < |b| {
        LongerOverhangs(a, x, b, y);
      } else if |b| < |a| {
        LongerOverhangs(b, y, a, x);
      } else {
        assert a == (a + "-" + x)[..|a|] && b == (b + "-" + y)[..|b|];
        assert x == (a + "-" + x)[|a| + 1..] && y == (b + "-" + y)[|b| + 1..];
      }
    }
  }

  // ---------- labels ----------

  /** One application's name runs over into the other's namespace. */
  predicate LabelsCoincide(a: App, b: App) {
    Overhangs(a.name, a.ns, b.name, b.ns) || Overhangs(b.name, b.ns, a.name, a.ns)
  }

  /** Two different applications have the same label exactly then. */
  lemma LabelsEqualIff(a: App, b: App)
    ensures Label(a) == Label(b) && a != b <==> LabelsCoincide(a, b)
  {
    JoinsEqualIff(a.name, a.ns, b.name, b.ns);
  }

  // ---------- record names ----------

  /** What a record name holds beyond the application's. */
  function Tail(key: ObjKey): string {
    ToLower(key.kind + "-" + key.name + "-" + key.ns)
  }

  /** Kind, name and namespace read the same once joined, up to letter case. */
  predicate SameTail(k: ObjKey, l: ObjKey) {
    Coincide(ToLower(k.kind), ToLower(k.name + "-" + k.ns), ToLower(l.kind), ToLower(l.name + "-" + l.ns))
  }

  /** Name and namespace read the same once joined, up to letter case. */
  predicate SameRest(k: ObjKey, l: ObjKey) {
    Coincide(ToLower(k.name), ToLower(k.ns), ToLower(l.name), ToLower(l.ns))
  }

  lemma ToLowerJoin(a: string, b: string)
    ensures ToLower(a + "-" + b) == ToLower(a) + "-" + ToLower(b)
  {
    assert ToLower("-") == "-";
    ToLowerConcat(a + "-", b);
    ToLowerConcat(a, "-");
  }

  lemma RecordNameParts(app: App, key: ObjKey)
    ensures RecordName(app, key) == ToLower(app.name) + "-" + Tail(key)
    ensures Tail(key) == ToLower(key.kind) + "-" + ToLower(key.name + "-" + key.ns)
    ensures ToLower(key.name + "-" + key.ns) == ToLower(key.name) + "-" + ToLower(key.ns)
  {
    assert app.name + "-" + key.kind + "-" + key.name + "-" + key.ns
        == app.name + "-" + (key.kind + "-" + key.name + "-" + key.ns);
    ToLowerJoin(app.name, key.kind + "-" + key.name + "-" + key.ns);
    assert key.kind + "-" + key.name + "-" + key.ns == key.kind + "-" + (key.name + "-" + key.ns);
    ToLowerJoin(key.kind, key.name + "-" + key.ns);
    ToLowerJoin(key.name, key.ns);
  }

  /** A record name is the joined parts with capitals made small, so it never contains one. */
  lemma RecordNameIs(app: App, key: ObjKey)
    ensures Lowered(app.name + "-" + key.kind + "-" + key.name + "-" + key.ns, RecordName(app, key))
    ensures forall c | c in RecordName(app, key) :: !(65 <= c as int <= 90)
  {
    ToLowerIs(app.name + "-" + key.kind + "-" + key.name + "-" + key.ns);
  }

  /** Kinds are capitalised, record names are not. */
  lemma RecordNameOfService()
    ensures RecordName(App("web", "p"), ObjKey("v1", "Service", "d", "x")) == "web-service-x-d"
    ensures RecordName(App("web", "p"), ObjKey("v1", "service", "d", "x")) == "web-service-x-d"
  {
    RecordNameIs(App("web", "p"), ObjKey("v1", "Service", "d", "x"));
    RecordNameIs(App("web", "p"), ObjKey("v1", "service", "d", "x"));
    assert "web" + "-" + "Service" + "-" + "x" + "-" + "d" == "web-Service-x-d";
    assert "web" + "-" + "service" + "-" + "x" + "-" + "d" == "web-service-x-d";
  }

  /** For one application, over all kinds, names and namespaces: two objects have the same
      record name exactly when kind, name and namespace read the same once joined. */
  lemma RecordNameInjective(app: App, k: ObjKey, l: ObjKey)
    ensures RecordName(app, k) == RecordName(app, l) <==> SameTail(k, l)
  {
    RecordNamesEqualIff(app, k, app, l);
  }

  /** Where kinds are free of '-', as Kubernetes' own are, that is a matter of kinds that agree
      up to letter case and of names and namespaces that read the same. */
  lemma SameTailOfPlainKinds(k: ObjKey, l: ObjKey)
    requires '-' !in k.kind && '-' !in l.kind
    ensures SameTail(k, l) <==> ToLower(k.kind) == ToLower(l.kind) && SameRest(k, l)
  {
    ToLowerKeeps(k.kind, '-');
    ToLowerKeeps(l.kind, '-');
    NoOverhang(ToLower(k.kind), ToLower(k.name + "-" + k.ns), ToLower(l.kind), ToLower(l.name + "-" + l.ns));
    NoOverhang(ToLower(l.kind), ToLower(l.name + "-" + l.ns), ToLower(k.kind), ToLower(k.name + "-" + k.ns));
    ToLowerJoin(k.name, k.ns);
    ToLowerJoin(l.name, l.ns);
    JoinsEqualIff(ToLower(k.name), ToLower(k.ns), ToLower(l.name), ToLower(l.ns));
  }

  lemma NoOverhang(a: string, x: string, b: string, y: string)
    requires '-' !in b || '-' !in x
    ensures !Overhangs(a, x, b, y)
  {
    if a + "-" <= b {
      assert b[|a|] == '-';
      assert (b[|a| + 1..] + "-" + y)[|b| - |a| - 1] == '-';
    }
  }

  /** What makes the record names of two applications' objects the same. */
  predicate NamesCoincide(a: App, k: ObjKey, b: App, l: ObjKey) {
    if ToLower(a.name) == ToLower(b.name) then SameTail(k, l)
    else Overhangs(ToLower(a.name), Tail(k), ToLower(b.name), Tail(l))
         || Overhangs(ToLower(b.name), Tail(l), ToLower(a.name), Tail(k))
  }

  /** For any two applications and any objects: the exact condition for equal record names. */
  lemma RecordNamesEqualIff(a: App, k: ObjKey, b: App, l: ObjKey)
    ensures RecordName(a, k) == RecordName(b, l) <==> NamesCoincide(a, k, b, l)
  {
    RecordNameParts(a, k);
    RecordNameParts(b, l);
    JoinsEqualIff(ToLower(a.name), Tail(k), ToLower(b.name), Tail(l));
    JoinsEqualIff(ToLower(k.kind), ToLower(k.name + "-" + k.ns), ToLower(l.kind), ToLower(l.name + "-" + l.ns));
  }

  // ---------- the hypothesis, discharged ----------

  /** The hypothesis over any applications, namespaces, kinds and names, in terms of what can be
      read off the claims: no application's name runs over into another's namespace, and no two
      claims from one namespace have names that coincide. */
  lemma SeparateIff(claims: set<Claim>)
    ensures Separate(claims) <==>
              && (forall c, d | c in claims && d in claims :: !LabelsCoincide(c.app, d.app))
              && (forall c, d | c in claims && d in claims && c != d && c.app.ns == d.app.ns ::
                    !NamesCoincide(c.app, c.key, d.app, d.key))
  {
    forall c, d | c in claims && d in claims
      ensures Label(c.app) == Label(d.app) && c.app != d.app <==> LabelsCoincide(c.app, d.app)
      ensures Rk(c) == Rk(d) <==> c.app.ns == d.app.ns && NamesCoincide(c.app, c.key, d.app, d.key)
    {
      LabelsEqualIff(c.app, d.app);
      RecordNamesEqualIff(c.app, c.key, d.app, d.key);
    }
  }

  /** Up to letter case the two claims agree on everything a record name is made of. */
  predicate SameParts(c: Claim, d: Claim) {
    && c.app.ns == d.app.ns
    && ToLower(c.app.name) == ToLower(d.app.name)
    && ToLower(c.key.kind) == ToLower(d.key.kind)
    && ToLower(c.key.name) == ToLower(d.key.name)
    && ToLower(c.key.ns) == ToLower(d.key.ns)
  }

  predicate Plain(c: Claim) {
    '-' !in c.app.name && '-' !in c.key.kind && '-' !in c.key.ns
  }

  lemma PlainNamesCoincide(c: Claim, d: Claim)
    requires Plain(c) && Plain(d) && c.app.ns == d.app.ns
    ensures NamesCoincide(c.app, c.key, d.app, d.key) <==> SameParts(c, d)
  {
    ToLowerKeeps(c.app.name, '-');
    ToLowerKeeps(d.app.name, '-');
    NoOverhang(ToLower(c.app.name), Tail(c.key), ToLower(d.app.name), Tail(d.key));
    NoOverhang(ToLower(d.app.name), Tail(d.key), ToLower(c.app.name), Tail(c.key));
    SameTailOfPlainKinds(c.key, d.key);
    ToLowerKeeps(c.key.ns, '-');
    ToLowerKeeps(d.key.ns, '-');
    NoOverhang(ToLower(c.key.name), ToLower(c.key.ns), ToLower(d.key.name), ToLower(d.key.ns));
    NoOverhang(ToLower(d.key.name), ToLower(d.key.ns), ToLower(c.key.name), ToLower(c.key.ns));
  }

  /** With application names, kinds and object namespaces free of '-', any number of
      applications over any number of namespaces meet the hypothesis exactly when no two
      claims agree on all parts up to letter case; object names are unrestricted. */
  lemma PlainClaimsSeparate(claims: set<Claim>)
    requires forall c | c in claims :: Plain(c)
    ensures Separate(claims) <==> forall c, d | c in claims && d in claims && SameParts(c, d) :: c == d
  {
    SeparateIff(claims);
    forall c, d | c in claims && d in claims
      ensures !LabelsCoincide(c.app, d.app)
      ensures c.app.ns == d.app.ns ==> (NamesCoincide(c.app, c.key, d.app, d.key) <==> SameParts(c, d))
    {
      NoOverhang(c.app.name, c.app.ns, d.app.name, d.app.ns);
      NoOverhang(d.app.name, d.app.ns, c.app.name, c.app.ns);
      if c.app.ns == d.app.ns {
        PlainNamesCoincide(c, d);
      }
    }
  }

  /** In one object namespace, whatever it is called, and with kinds free of '-', the objects of
      one application meet it exactly when no two agree on kind and name up to letter case. */
  lemma OneNamespaceSeparates(app: App, ns: string, claims: set<Claim>)
    requires forall c | c in claims :: c.app == app && c.key.ns == ns && '-' !in c.key.kind
    ensures Separate(claims)
       <==> forall c, d | c in claims && d in claims
              && ToLower(c.key.kind) == ToLower(d.key.kind) && ToLower(c.key.name) == ToLower(d.key.name) :: c == d
  {
    forall c, d | c in claims && d in claims
      ensures Rk(c) == Rk(d)
         <==> ToLower(c.key.kind) == ToLower(d.key.kind) && ToLower(c.key.name) == ToLower(d.key.name)
    {
      RecordNameInjective(app, c.key, d.key);
      SameTailOfPlainKinds(c.key, d.key);
    }
  }

  /** Two different objects of one application, in different namespaces, that share a record. */
  lemma RecordsCollide(app: App)
    ensures var k := ObjKey("v1", "Service", "x-y", "web"); var l := ObjKey("v1", "Service", "y", "web-x");
            k != l && RecordName(app, k) == RecordName(app, l)
  {
    var k := ObjKey("v1", "Service", "x-y", "web");
    var l := ObjKey("v1", "Service", "y", "web-x");
    assert app.name + "-" + k.kind + "-" + k.name + "-" + k.ns
        == app.name + "-" + l.kind + "-" + l.name + "-" + l.ns;
  }

  lemma JoinsAssociate(a: string, b: string, x: string, y: string)
    ensures a + "-" + (b + "-" + ((b + "-" + x) + "-" + y)) == (a + "-" + b) + "-" + (b + "-" + (x + "-" + y))
  {
  }

  lemma ToLowerTwice(s: string)
    ensures ToLower(ToLower(s)) == ToLower(s)
  {
  }

  /** Objects of two applications with different labels, deployed from one namespace to another,
      that share a record: "web" deploying service "service-x" and "web-service" deploying
      service "x", say. */
  lemma RecordsCollideAcross(name: string, ns: string, kind: string, objNs: string, objName: string)
    ensures var lowered := ToLower(kind);
            var c := Claim(App(name, ns), ObjKey("v1", kind, objNs, lowered + "-" + objName));
            var d := Claim(App(name + "-" + lowered, ns), ObjKey("v1", kind, objNs, objName));
            Label(c.app) != Label(d.app) && Rk(c) == Rk(d)
  {
    var lowered := ToLower(kind);
    var a, b := App(name, ns), App(name + "-" + lowered, ns);
    assert |Label(a)| < |Label(b)|;
    RecordNameParts(a, ObjKey("v1", kind, objNs, lowered + "-" + objName));
    RecordNameParts(b, ObjKey("v1", kind, objNs, objName));
    ToLowerTwice(kind);
    ToLowerJoin(lowered, objName);
    ToLowerJoin(name, lowered);
    JoinsAssociate(ToLower(name), lowered, ToLower(objName), ToLower(objNs));
  }

  /** Labels are ambiguous too, so one application's listing can return another's records. */
  lemma LabelsCollide()
    ensures App("web-eu", "prod") != App("web", "eu-prod")
         && Label(App("web-eu", "prod")) == Label(App("web", "eu-prod"))
  {
    assert Label(App("web-eu", "prod")) == "web-eu-prod" == Label(App("web", "eu-prod"));
  }
}
