/** The tree of API routes: wrappers linked by mutation, their normalised full paths, and the
    listing of all paths. Registering handlers with the HTTP router itself is not modelled. */
module Router {
  import opened Collections
  import opened Strings
  import opened Wrappers

  // ---------- collapsing slashes ----------

  /** Every run of two or more slashes becomes one. */
  function Collapse(s: string): string {
    if |s| < 2 then s
    else if s[0] == '/' && s[1] == '/' then Collapse(s[1..])
    else [s[0]] + Collapse(s[1..])
  }

  predicate HasDouble(s: string) {
    exists i :: 0 <= i < |s| - 1 && s[i] == '/' && s[i + 1] == '/'
  }

  lemma {:induction false} CollapseHead(s: string)
    ensures |Collapse(s)| <= |s| && (s != [] ==> Collapse(s) != [] && Collapse(s)[0] == s[0])
  {
    if |s| >= 2 {
      CollapseHead(s[1..]);
    }
  }

  lemma {:induction false} CollapseNoDouble(s: string)
    ensures !HasDouble(Collapse(s))
  {
    if |s| >= 2 {
      CollapseNoDouble(s[1..]);
      CollapseHead(s[1..]);
      if !(s[0] == '/' && s[1] == '/') {
        var rest := Collapse(s[1..]);
        forall i | 0 <= i < |Collapse(s)| - 1
          ensures !(Collapse(s)[i] == '/' && Collapse(s)[i + 1] == '/')
        {
          if i > 0 {
            assert Collapse(s)[i] == rest[i - 1] && Collapse(s)[i + 1] == rest[i];
          }
        }
      }
    }
  }

  /** Collapsing changes nothing exactly when there is no run to collapse. */
  lemma {:induction false} CollapseIdentity(s: string)
    ensures Collapse(s) == s <==> !HasDouble(s)
  {
    CollapseNoDouble(s);
    if |s| >= 2 {
      CollapseIdentity(s[1..]);
      if !HasDouble(s) {
        assert !(s[0] == '/' && s[1] == '/');
        forall i | 0 <= i < |s[1..]| - 1
          ensures !(s[1..][i] == '/' && s[1..][i + 1] == '/')
        {
          assert s[1..][i] == s[i + 1] && s[1..][i + 1] == s[i + 2];
        }
        assert s == [s[0]] + s[1..];
      }
    }
  }

  /** Collapsing a prefix first makes no difference. */
  lemma {:induction false} CollapseAbsorbs(a: string, b: string)
    ensures Collapse(Collapse(a) + b) == Collapse(a + b)
  {
    if |a| >= 2 {
      assert (a + b)[1..] == a[1..] + b;
      CollapseAbsorbs(a[1..], b);
      CollapseHead(a[1..]);
      if !(a[0] == '/' && a[1] == '/') {
        var s := Collapse(a) + b;
        assert s == [a[0]] + (Collapse(a[1..]) + b);
        assert s[1..] == Collapse(a[1..]) + b;
      }
    }
  }

  /** What stands between slashes, leaving out what is empty. */
  function Parts(s: string): seq<string>
    decreases |s|
  {
    if s == "" then []
    else if s[0] == '/' then Parts(s[1..])
    else var i := IndexOf(s, '/'); assert i > 0; [s[..i]] + Parts(s[i..])
  }

  lemma PartsCons(c: char, t: string)
    requires c != '/'
    ensures t == "" || t[0] == '/' ==> Parts([c] + t) == [[c]] + Parts(t)
    ensures t != "" && t[0] != '/' ==> Parts(t) != [] && Parts([c] + t) == [[c] + Parts(t)[0]] + Parts(t)[1..]
  {
    var s := [c] + t;
    var i, j := IndexOf(s, '/'), IndexOf(t, '/');
    assert s[1..] == t;
    assert i == j + 1 && s[..i] == [c] + t[..j] && s[i..] == t[j..];
    if t == "" || t[0] == '/' {
      assert t[..j] == "" && t[j..] == t;
    }
  }

  /** Collapsing removes slashes only, and none that separates: the parts are the same, and so is
      whether there is a slash in front or behind. */
  lemma {:induction false} CollapseKeepsParts(s: string)
    ensures Parts(Collapse(s)) == Parts(s)
    ensures |Collapse(s)| <= |s| && (s == "" <==> Collapse(s) == "")
    ensures s != "" ==> Collapse(s)[0] == s[0] && Collapse(s)[|Collapse(s)| - 1] == s[|s| - 1]
  {
    if |s| >= 2 {
      CollapseKeepsParts(s[1..]);
      var rest := Collapse(s[1..]);
      assert s == [s[0]] + s[1..];
      if s[0] == '/' {
        assert s[1] != '/' ==> (['/'] + rest)[1..] == rest;
      } else {
        PartsCons(s[0], s[1..]);
        PartsCons(s[0], rest);
      }
    }
  }

  lemma {:induction false} PartsConcat(a: string, b: string)
    requires b != "" && b[0] == '/'
    ensures Parts(a + b) == Parts(a) + Parts(b)
  {
    if a == "" {
      assert a + b == b;
    } else {
      var c, t := a[0], a[1..];
      ConcatTail(a, b);
      PartsConcat(t, b);
      assert a == [c] + t && a + b == [c] + (t + b);
      if c != '/' {
        PartsCons(c, t);
        PartsCons(c, t + b);
        PartsConsConcat(c, t, b);
      }
    }
  }

  lemma PartsConsConcat(c: char, t: string, b: string)
    requires b != "" && b[0] == '/' && Parts(t + b) == Parts(t) + Parts(b)
    requires t == "" || t[0] == '/' ==> Parts([c] + t) == [[c]] + Parts(t)
    requires t != "" && t[0] != '/' ==> Parts(t) != [] && Parts([c] + t) == [[c] + Parts(t)[0]] + Parts(t)[1..]
    requires (t + b)[0] == '/' ==> Parts([c] + (t + b)) == [[c]] + Parts(t + b)
    requires (t + b)[0] != '/' ==> Parts([c] + (t + b)) == [[c] + Parts(t + b)[0]] + Parts(t + b)[1..]
    ensures Parts([c] + (t + b)) == Parts([c] + t) + Parts(b)
  {
    if t == "" {
      assert t + b == b;
    }
  }

  // ---------- the tree ----------

  predicate ValidSubPath(path: string) {
    path != "" && path != "/" && path[0] == '/'
  }

  class Wrapper {
    const subPath: string
    const handler: bool
    var router: bool  // whether it has been given a router
    var children: seq<Wrapper>
    var parent: Wrapper?
    ghost var depth: nat

    constructor (path: string, handler: bool)
      ensures subPath == path && this.handler == handler
      ensures !router && children == [] && parent == null && depth == 0
    {
      subPath, this.handler := path, handler;
      router, children, parent, depth := false, [], null, 0;
    }

    method SetRouter()
      modifies this`router
      ensures router
    {
      router := true;
    }

    /** Why `Add` turns a child away. */
    predicate Refuses(child: Wrapper?)
      reads child
    {
      child == null || child.parent != null || !ValidSubPath(child.subPath)
    }

    /** Make `child` a child of this wrapper. The source dereferences this wrapper's router
        once the child is accepted, so it must have one. */
    method Add(child: Wrapper?, ghost nodes: set<Wrapper>, ghost root: Wrapper) returns (ok: bool)
      requires Tree(nodes, root) && this in nodes && (child != null ==> child in nodes)
      requires router || Refuses(child)
      modifies this`children, child
      ensures Tree(nodes, root)
      ensures ok <==> child != null && old(child.parent) == null && |child.subPath| >= 2 && child.subPath[0] == '/'
      ensures ok ==> child.parent == this && child.router && children == old(children) + [child]
      ensures !ok ==> children == old(children) && (child != null ==> unchanged(child))
      ensures child != null ==> child.children == old(child.children)
    {
      if child == null || child.parent != null
         || child.subPath == "" || child.subPath == "/" || child.subPath[0] != '/' {
        return false;
      }
      assert Node(nodes, root, child) && Node(nodes, root, this);
      child.parent := this;
      children := children + [child];
      child.router := true;
      child.depth := depth + 1;
      ok := true;
      forall w | w in nodes
        ensures Node(nodes, root, w)
      {
        assert old(Node(nodes, root, w));
      }
    }
  }

  /** One wrapper among `nodes`: it has a router exactly if it is the root or has been added;
      links up and down agree; depth grows along them. */
  ghost predicate Node(nodes: set<Wrapper>, root: Wrapper, w: Wrapper)
    reads nodes, w
  {
    && w in nodes
    && (w.router <==> w == root || w.parent != null)
    && (w.parent != null ==>
          && w != root && w.parent in nodes && w.parent.router
          && w.depth == w.parent.depth + 1
          && w in w.parent.children
          && ValidSubPath(w.subPath))
    && (forall c | c in w.children :: c in nodes && c.parent == w)
    && (forall i, j | 0 <= i < j < |w.children| :: w.children[i] != w.children[j])
    && (!w.router ==> w.children == [])
  }

  /** The wrappers form a tree under the root, which alone was given its router directly, and
      beside it wrappers that have not been added yet. */
  ghost predicate Tree(nodes: set<Wrapper>, root: Wrapper)
    reads nodes
  {
    && root in nodes && root.parent == null && root.depth == 0 && root.subPath == "/"
    && forall w {:trigger Node(nodes, root, w)} | w in nodes :: Node(nodes, root, w)
  }

  /** The root, as the API server sets it up. */
  method NewRoot(handler: bool) returns (root: Wrapper)
    ensures fresh(root) && Tree({root}, root) && root.handler == handler
    ensures root.children == []
  {
    root := new Wrapper("/", handler);
    root.SetRouter();
  }

  /** A new wrapper may join at any time. */
  lemma TreeWithNew(nodes: set<Wrapper>, root: Wrapper, w: Wrapper)
    requires Tree(nodes, root) && w !in nodes
    requires !w.router && w.children == [] && w.parent == null
    ensures Tree(nodes + {w}, root)
  {
    forall x | x in nodes + {w}
      ensures Node(nodes + {w}, root, x)
    {
      assert x in nodes ==> Node(nodes, root, x);
    }
  }

  // ---------- any sequence of calls ----------

  /** What building the routes does: make a wrapper, or add one to another, both given by the
      order in which they were made; a child may be nil. */
  datatype Op = New(path: string, handler: bool) | Add(parent: nat, child: Option<nat>)

  /** A wrapper as a value, its links given by number. */
  datatype Entry = Entry(path: string, handler: bool, parent: Option<nat>, children: seq<nat>)

  predicate Turned(f: seq<Entry>, child: Option<nat>) {
    child.None? || child.value >= |f| || f[child.value].parent.Some? || !ValidSubPath(f[child.value].path)
  }

  /** The wrappers exist, and one that is to take a child has a router. */
  predicate Allowed(f: seq<Entry>, op: Op) {
    op.Add? ==>
      && op.parent < |f| && (op.child.Some? ==> op.child.value < |f|)
      && (Turned(f, op.child) || op.parent == 0 || f[op.parent].parent.Some?)
  }

  function Enter(f: seq<Entry>, op: Op): seq<Entry>
    requires Allowed(f, op)
  {
    match op
    case New(path, handler) => f + [Entry(path, handler, None, [])]
    case Add(p, child) =>
      if Turned(f, child) then f
      else
        var g := f[p := f[p].(children := f[p].children + [child.value])];
        g[child.value := g[child.value].(parent := Some(p))]
  }

  predicate AllAllowed(f: seq<Entry>, ops: seq<Op>)
    decreases ops
  {
    ops != [] ==> Allowed(f, ops[0]) && AllAllowed(Enter(f, ops[0]), ops[1..])
  }

  function EnterAll(f: seq<Entry>, ops: seq<Op>): seq<Entry>
    requires AllAllowed(f, ops)
    decreases ops
  {
    if ops == [] then f else EnterAll(Enter(f, ops[0]), ops[1..])
  }

  /** The wrapper has the entry's path, handler, parent and children. */
  ghost predicate Shows(ws: seq<Wrapper>, w: Wrapper, e: Entry)
    reads w
  {
    && w.subPath == e.path && w.handler == e.handler
    && (e.parent.None? ==> w.parent == null)
    && (e.parent.Some? ==> e.parent.value < |ws| && w.parent == ws[e.parent.value])
    && |w.children| == |e.children|
    && forall k | 0 <= k < |e.children| :: e.children[k] < |ws| && w.children[k] == ws[e.children[k]]
  }

  ghost predicate ShowsAll(ws: seq<Wrapper>, f: seq<Entry>)
    reads ws
  {
    && |ws| == |f|
    && (forall i, j | 0 <= i < j < |ws| :: ws[i] != ws[j])
    && forall i | 0 <= i < |ws| :: Shows(ws, ws[i], f[i])
  }

  ghost function Nodes(ws: seq<Wrapper>): set<Wrapper> {
    set w | w in ws
  }

  method PerformNew(ws: seq<Wrapper>, path: string, handler: bool, ghost f: seq<Entry>) returns (ws': seq<Wrapper>)
    requires ws != [] && ShowsAll(ws, f) && Tree(Nodes(ws), ws[0])
    ensures ws <= ws' && fresh(Nodes(ws') - Nodes(ws))
    ensures ShowsAll(ws', f + [Entry(path, handler, None, [])]) && Tree(Nodes(ws'), ws[0])
  {
    var w := new Wrapper(path, handler);
    ws' := ws + [w];
    assert Nodes(ws') == Nodes(ws) + {w};
    TreeWithNew(Nodes(ws), ws[0], w);
    assert forall i | 0 <= i < |ws| :: Shows(ws, ws[i], f[i]) && Shows(ws', ws[i], f[i]);
  }

  lemma EnterAdds(f: seq<Entry>, p: nat, c: nat)
    requires Allowed(f, Op.Add(p, Some(c))) && !Turned(f, Some(c)) && p != c
    ensures var g := Enter(f, Op.Add(p, Some(c)));
            && |g| == |f|
            && g[p] == f[p].(children := f[p].children + [c]) && g[c] == f[c].(parent := Some(p))
            && forall i | 0 <= i < |f| && i != p && i != c :: g[i] == f[i]
  {
  }

  method PerformAdd(ws: seq<Wrapper>, p: nat, c: nat, ghost f: seq<Entry>)
    requires ws != [] && ShowsAll(ws, f) && Tree(Nodes(ws), ws[0])
    requires Allowed(f, Op.Add(p, Some(c)))
    modifies ws
    ensures ShowsAll(ws, Enter(f, Op.Add(p, Some(c)))) && Tree(Nodes(ws), ws[0])
  {
    ghost var g := Enter(f, Op.Add(p, Some(c)));
    assert Shows(ws, ws[p], f[p]) && Shows(ws, ws[c], f[c]) && Shows(ws, ws[0], f[0]);
    assert Node(Nodes(ws), ws[0], ws[p]);
    assert ws[p].Refuses(ws[c]) == Turned(f, Some(c));
    if !Turned(f, Some(c)) {
      EnterAdds(f, p, c);
    }
    var ok := ws[p].Add(ws[c], Nodes(ws), ws[0]);
    forall i | 0 <= i < |ws|
      ensures Shows(ws, ws[i], g[i])
    {
      assert old(Shows(ws, ws[i], f[i]));
      if ok && i == p {
        assert Shows(ws, ws[p], g[p]);
      } else if ok && i == c {
        assert Shows(ws, ws[c], g[c]);
      } else {
        assert g[i] == f[i] && ws[i].children == old(ws[i].children) && ws[i].parent == old(ws[i].parent);
      }
    }
  }

  /** One call, on wrappers that form a tree and on their entries. */
  method Perform(ws: seq<Wrapper>, op: Op, ghost f: seq<Entry>) returns (ws': seq<Wrapper>)
    requires ws != [] && ShowsAll(ws, f) && Tree(Nodes(ws), ws[0]) && Allowed(f, op)
    modifies ws
    ensures ws <= ws' && fresh(Nodes(ws') - Nodes(ws))
    ensures ShowsAll(ws', Enter(f, op)) && Tree(Nodes(ws'), ws[0])
  {
    match op
    case New(path, handler) =>
      ws' := PerformNew(ws, path, handler, f);
    case Add(p, child) =>
      ws' := ws;
      match child
      case None =>
        var ok := ws[p].Add(null, Nodes(ws), ws[0]);
        assert forall i | 0 <= i < |ws| :: old(Shows(ws, ws[i], f[i])) && Shows(ws, ws[i], f[i]);
      case Some(c) => PerformAdd(ws, p, c, f);
  }

  /** Any sequence of calls from the root builds a tree, with exactly the links the calls say. */
  method Build(rootHandler: bool, ops: seq<Op>) returns (ws: seq<Wrapper>)
    requires AllAllowed([Entry("/", rootHandler, None, [])], ops)
    ensures ws != [] && fresh(ws) && Tree(Nodes(ws), ws[0])
    ensures ShowsAll(ws, EnterAll([Entry("/", rootHandler, None, [])], ops))
  {
    var root := NewRoot(rootHandler);
    ws := [root];
    ghost var f := [Entry("/", rootHandler, None, [])];
    assert Nodes(ws) == {root};
    var i := 0;
    while i < |ops|
      invariant 0 <= i <= |ops| && ws != [] && fresh(ws)
      invariant ShowsAll(ws, f) && Tree(Nodes(ws), ws[0])
      invariant AllAllowed(f, ops[i..])
      invariant EnterAll(f, ops[i..]) == EnterAll([Entry("/", rootHandler, None, [])], ops)
    {
      ws := Perform(ws, ops[i], f);
      f := Enter(f, ops[i]);
      i := i + 1;
    }
  }

  // ---------- full paths ----------

  function FullPath(ghost nodes: set<Wrapper>, ghost root: Wrapper, w: Wrapper): string
    requires Tree(nodes, root) && w in nodes
    reads nodes
    decreases w.depth
  {
    assert Node(nodes, root, w);
    if w.parent == null then w.subPath else Collapse(FullPath(nodes, root, w.parent) + w.subPath)
  }

  /** The subpaths from the root down, run together. */
  ghost function Concatenated(nodes: set<Wrapper>, root: Wrapper, w: Wrapper): string
    requires Tree(nodes, root) && w in nodes
    reads nodes
    decreases w.depth
  {
    assert Node(nodes, root, w);
    if w.parent == null then w.subPath else Concatenated(nodes, root, w.parent) + w.subPath
  }

  /** Collapsing on the way down is the same as collapsing once at the end, and leaves no "//"; it
      changes nothing exactly if there was none; the root's path is "/". */
  lemma {:induction false} FullPathCollapsesOnce(nodes: set<Wrapper>, root: Wrapper, w: Wrapper)
    requires Tree(nodes, root) && w in nodes && w.router
    ensures FullPath(nodes, root, w) == Collapse(Concatenated(nodes, root, w))
    ensures !HasDouble(FullPath(nodes, root, w))
    ensures FullPath(nodes, root, w) == Concatenated(nodes, root, w) <==> !HasDouble(Concatenated(nodes, root, w))
    ensures w == root ==> FullPath(nodes, root, w) == "/"
    decreases w.depth
  {
    assert Node(nodes, root, w);
    if w.parent != null {
      FullPathCollapsesOnce(nodes, root, w.parent);
      CollapseAbsorbs(Concatenated(nodes, root, w.parent), w.subPath);
    }
    CollapseNoDouble(Concatenated(nodes, root, w));
    CollapseIdentity(Concatenated(nodes, root, w));
  }

  /** A child's full path goes on from its parent's: the same parts, and then those of its subpath. */
  lemma FullPathGoesOn(nodes: set<Wrapper>, root: Wrapper, w: Wrapper)
    requires Tree(nodes, root) && w in nodes && w.parent != null
    ensures w.parent in nodes
    ensures Parts(FullPath(nodes, root, w)) == Parts(FullPath(nodes, root, w.parent)) + Parts(w.subPath)
  {
    assert Node(nodes, root, w);
    CollapseKeepsParts(FullPath(nodes, root, w.parent) + w.subPath);
    PartsConcat(FullPath(nodes, root, w.parent), w.subPath);
  }

  /** The wrapper `k` links up, if there are as many. */
  ghost function Ancestor(nodes: set<Wrapper>, root: Wrapper, w: Wrapper, k: nat): Wrapper?
    requires Tree(nodes, root) && w in nodes
    reads nodes
    decreases k
  {
    assert Node(nodes, root, w);
    if k == 0 then w else if w.parent == null then null else Ancestor(nodes, root, w.parent, k - 1)
  }

  /** Following parents never comes back, and from every added wrapper it leads to the root. */
  lemma {:induction false} Acyclic(nodes: set<Wrapper>, root: Wrapper, w: Wrapper, k: nat)
    requires Tree(nodes, root) && w in nodes
    ensures var a := Ancestor(nodes, root, w, k);
            && (a != null ==> a in nodes && k <= w.depth && a.depth == w.depth - k)
            && (k > 0 ==> a != w)
            && (w.router && k == w.depth ==> a == root)
    decreases k
  {
    assert Node(nodes, root, w);
    if k > 0 && w.parent != null {
      Acyclic(nodes, root, w.parent, k - 1);
    }
  }

  // ---------- listing all paths ----------

  /** A bound on the depths, for the recursion downwards. */
  ghost function MaxDepth(nodes: set<Wrapper>): (d: nat)
    reads nodes
    ensures forall w | w in nodes :: w.depth <= d
  {
    if nodes == {} then 0
    else
      var w :| w in nodes;
      var d := MaxDepth(nodes - {w});
      if w.depth > d then w.depth else d
  }

  ghost predicate Siblings(nodes: set<Wrapper>, d: nat, ws: seq<Wrapper>)
    reads nodes
  {
    && d <= MaxDepth(nodes) + 1
    && (forall w | w in ws :: w in nodes && w.depth == d && w.router)
    && (forall i, j | 0 <= i < j < |ws| :: ws[i] != ws[j])
  }

  ghost function Preorder(nodes: set<Wrapper>, root: Wrapper, w: Wrapper): (r: seq<Wrapper>)
    requires Tree(nodes, root) && w in nodes && w.router
    reads nodes
    ensures forall x | x in r :: x in nodes
    decreases 2 * (MaxDepth(nodes) + 1 - w.depth), 0
  {
    ChildrenAreSiblings(nodes, root, w);
    [w] + PreorderAll(nodes, root, w.depth + 1, w.children)
  }

  ghost function PreorderAll(nodes: set<Wrapper>, root: Wrapper, d: nat, ws: seq<Wrapper>): (r: seq<Wrapper>)
    requires Tree(nodes, root) && Siblings(nodes, d, ws)
    reads nodes
    ensures forall x | x in r :: x in nodes
    decreases 2 * (MaxDepth(nodes) + 1 - d) + 1, |ws|
  {
    if ws == [] then []
    else
      Preorder(nodes, root, ws[0]) + PreorderAll(nodes, root, d, ws[1..])
  }

  lemma ChildrenAreSiblings(nodes: set<Wrapper>, root: Wrapper, w: Wrapper)
    requires Tree(nodes, root) && w in nodes && w.router
    ensures Siblings(nodes, w.depth + 1, w.children)
  {
    assert Node(nodes, root, w);
    forall c | c in w.children
      ensures c in nodes && c.depth == w.depth + 1 && c.router
    {
      assert Node(nodes, root, c);
    }
  }

  /** The full paths of those that have a handler. */
  ghost function Paths(nodes: set<Wrapper>, root: Wrapper, ws: seq<Wrapper>): seq<string>
    requires Tree(nodes, root) && forall w | w in ws :: w in nodes
    reads nodes
  {
    if ws == [] then []
    else (if ws[0].handler then [FullPath(nodes, root, ws[0])] else []) + Paths(nodes, root, ws[1..])
  }

  lemma {:induction false} PathsOfConcat(nodes: set<Wrapper>, root: Wrapper, a: seq<Wrapper>, b: seq<Wrapper>)
    requires Tree(nodes, root) && forall w | w in a + b :: w in nodes
    ensures Paths(nodes, root, a + b) == Paths(nodes, root, a) + Paths(nodes, root, b)
  {
    if a == [] {
      assert a + b == b;
    } else {
      assert (a + b)[1..] == a[1..] + b;
      PathsOfConcat(nodes, root, a[1..], b);
    }
  }

  /** The paths listed from a wrapper: its own, then those from its children. */
  lemma PathsFrom(nodes: set<Wrapper>, root: Wrapper, w: Wrapper)
    requires Tree(nodes, root) && w in nodes && w.router
    ensures Siblings(nodes, w.depth + 1, w.children)
    ensures Paths(nodes, root, Preorder(nodes, root, w))
         == (if w.handler then [FullPath(nodes, root, w)] else [])
            + Paths(nodes, root, PreorderAll(nodes, root, w.depth + 1, w.children))
  {
    ChildrenAreSiblings(nodes, root, w);
    var below := PreorderAll(nodes, root, w.depth + 1, w.children);
    var all := [w] + below;
    assert all[0] == w && all[1..] == below;
    assert Preorder(nodes, root, w) == all;
  }

  lemma PathsFromFirst(nodes: set<Wrapper>, root: Wrapper, d: nat, ws: seq<Wrapper>, paths: seq<string>)
    requires Tree(nodes, root) && Siblings(nodes, d, ws) && ws != []
    ensures Siblings(nodes, d, ws[1..])
    ensures ws[0] in nodes && ws[0].router && ws[0].depth == d
    ensures paths + Paths(nodes, root, PreorderAll(nodes, root, d, ws))
         == (paths + Paths(nodes, root, Preorder(nodes, root, ws[0])))
            + Paths(nodes, root, PreorderAll(nodes, root, d, ws[1..]))
  {
    assert ws[0] in ws;
    PathsOfConcat(nodes, root, Preorder(nodes, root, ws[0]), PreorderAll(nodes, root, d, ws[1..]));
    ConcatAssociates(paths, Paths(nodes, root, Preorder(nodes, root, ws[0])),
                     Paths(nodes, root, PreorderAll(nodes, root, d, ws[1..])));
  }

  lemma NoPathsLeft(nodes: set<Wrapper>, root: Wrapper, d: nat, paths: seq<string>)
    requires Tree(nodes, root) && Siblings(nodes, d, [])
    ensures paths + Paths(nodes, root, PreorderAll(nodes, root, d, [])) == paths
  {
  }

  /** Append the paths of this wrapper and everything below it. */
  method AddPath(paths: seq<string>, w: Wrapper, ghost nodes: set<Wrapper>, ghost root: Wrapper)
    returns (paths': seq<string>)
    requires Tree(nodes, root) && w in nodes && w.router
    ensures paths' == paths + Paths(nodes, root, Preorder(nodes, root, w))
    decreases MaxDepth(nodes) - w.depth
  {
    paths' := paths;
    PathsFrom(nodes, root, w);
    if w.handler {
      paths' := paths' + [FullPath(nodes, root, w)];
    }
    ghost var d := w.depth + 1;
    ghost var whole := paths + Paths(nodes, root, Preorder(nodes, root, w));
    ghost var rest := w.children;
    assert whole == paths' + Paths(nodes, root, PreorderAll(nodes, root, d, rest));
    var i := 0;
    while i < |w.children|
      invariant 0 <= i <= |w.children| && rest == w.children[i..]
      invariant Siblings(nodes, d, rest)
      invariant whole == paths' + Paths(nodes, root, PreorderAll(nodes, root, d, rest))
    {
      PathsFromFirst(nodes, root, d, rest, paths');
      paths' := AddPath(paths', w.children[i], nodes, root);
      rest := rest[1..];
      i := i + 1;
    }
    assert rest == [];
    NoPathsLeft(nodes, root, d, paths');
  }

  // ---------- nothing left out, nothing twice ----------

  /** `x` is `w` or below it. */
  ghost predicate Under(nodes: set<Wrapper>, root: Wrapper, w: Wrapper, x: Wrapper)
    requires Tree(nodes, root)
    reads nodes
  {
    && w in nodes && x in nodes && x.router && w.depth <= x.depth
    && Ancestor(nodes, root, x, x.depth - w.depth) == w
  }

  lemma {:induction false} AncestorStep(nodes: set<Wrapper>, root: Wrapper, x: Wrapper, k: nat)
    requires Tree(nodes, root) && x in nodes
    ensures var a := Ancestor(nodes, root, x, k);
            Ancestor(nodes, root, x, k + 1) == if a == null then null else a.parent
    decreases k
  {
    assert Node(nodes, root, x);
    if k > 0 && x.parent != null {
      AncestorStep(nodes, root, x.parent, k - 1);
    }
  }

  lemma ChildTowards(nodes: set<Wrapper>, root: Wrapper, w: Wrapper, x: Wrapper)
    requires Tree(nodes, root) && Under(nodes, root, w, x) && x != w
    ensures exists c :: c in w.children && Under(nodes, root, c, x)
  {
    var k := x.depth - w.depth;
    Acyclic(nodes, root, x, k - 1);
    AncestorStep(nodes, root, x, k - 1);
    var c := Ancestor(nodes, root, x, k - 1);
    assert Node(nodes, root, c);
    assert Under(nodes, root, c, x);
  }

  lemma UnderParent(nodes: set<Wrapper>, root: Wrapper, w: Wrapper, c: Wrapper, x: Wrapper)
    requires Tree(nodes, root) && w in nodes && c in w.children && Under(nodes, root, c, x)
    ensures Under(nodes, root, w, x) && x != w
  {
    assert Node(nodes, root, w);
    assert Node(nodes, root, c);
    AncestorStep(nodes, root, x, x.depth - c.depth);
  }

  /** What is below a wrapper is the wrapper itself or below one of its children. */
  lemma UnderChild(nodes: set<Wrapper>, root: Wrapper, w: Wrapper, x: Wrapper)
    requires Tree(nodes, root) && w in nodes && w.router
    ensures Under(nodes, root, w, x) <==> x == w || exists c :: c in w.children && Under(nodes, root, c, x)
  {
    if Under(nodes, root, w, x) && x != w {
      ChildTowards(nodes, root, w, x);
    }
    if c :| c in w.children && Under(nodes, root, c, x) {
      UnderParent(nodes, root, w, c, x);
    }
  }

  /** No two siblings have anything below them in common. */
  lemma SiblingsDisjoint(nodes: set<Wrapper>, root: Wrapper, d: nat, ws: seq<Wrapper>, x: Wrapper)
    requires Tree(nodes, root) && Siblings(nodes, d, ws) && ws != [] && Under(nodes, root, ws[0], x)
    ensures forall v | v in ws[1..] :: !Under(nodes, root, v, x)
  {
    assert ws[0] in ws && ws[0].depth == d;
    forall v | v in ws[1..]
      ensures !Under(nodes, root, v, x)
    {
      assert v in ws && v.depth == d && v != ws[0];
    }
  }

  lemma {:induction false} PreorderMembers(nodes: set<Wrapper>, root: Wrapper, w: Wrapper, x: Wrapper)
    requires Tree(nodes, root) && w in nodes && w.router
    ensures x in Preorder(nodes, root, w) <==> Under(nodes, root, w, x)
    decreases 2 * (MaxDepth(nodes) + 1 - w.depth), 0
  {
    ChildrenAreSiblings(nodes, root, w);
    UnderChild(nodes, root, w, x);
    PreorderAllMembers(nodes, root, w.depth + 1, w.children, x);
  }

  lemma {:induction false} PreorderAllMembers(nodes: set<Wrapper>, root: Wrapper, d: nat, ws: seq<Wrapper>, x: Wrapper)
    requires Tree(nodes, root) && Siblings(nodes, d, ws)
    ensures x in PreorderAll(nodes, root, d, ws) <==> exists w :: w in ws && Under(nodes, root, w, x)
    decreases 2 * (MaxDepth(nodes) + 1 - d) + 1, |ws|
  {
    if ws != [] {
      PreorderMembers(nodes, root, ws[0], x);
      PreorderAllMembers(nodes, root, d, ws[1..], x);
      assert forall w :: w in ws <==> w == ws[0] || w in ws[1..];
    }
  }

  ghost predicate NoRepeats(ws: seq<Wrapper>) {
    forall i, j | 0 <= i < j < |ws| :: ws[i] != ws[j]
  }

  lemma NoRepeatsConcat(a: seq<Wrapper>, b: seq<Wrapper>)
    requires NoRepeats(a) && NoRepeats(b) && forall x | x in a :: x !in b
    ensures NoRepeats(a + b)
  {
    forall i, j | 0 <= i < j < |a + b|
      ensures (a + b)[i] != (a + b)[j]
    {
      if i < |a| <= j {
        assert a[i] in a && b[j - |a|] in b;
      }
    }
  }

  lemma {:induction false} PreorderNoRepeats(nodes: set<Wrapper>, root: Wrapper, w: Wrapper)
    requires Tree(nodes, root) && w in nodes && w.router
    ensures NoRepeats(Preorder(nodes, root, w))
    decreases 2 * (MaxDepth(nodes) + 1 - w.depth), 0
  {
    ChildrenAreSiblings(nodes, root, w);
    PreorderAllNoRepeats(nodes, root, w.depth + 1, w.children);
    PreorderAllMembers(nodes, root, w.depth + 1, w.children, w);
    NoRepeatsConcat([w], PreorderAll(nodes, root, w.depth + 1, w.children));
  }

  lemma {:induction false} PreorderAllNoRepeats(nodes: set<Wrapper>, root: Wrapper, d: nat, ws: seq<Wrapper>)
    requires Tree(nodes, root) && Siblings(nodes, d, ws)
    ensures NoRepeats(PreorderAll(nodes, root, d, ws))
    decreases 2 * (MaxDepth(nodes) + 1 - d) + 1, |ws|
  {
    if ws != [] {
      PreorderNoRepeats(nodes, root, ws[0]);
      PreorderAllNoRepeats(nodes, root, d, ws[1..]);
      forall x | x in Preorder(nodes, root, ws[0])
        ensures x !in PreorderAll(nodes, root, d, ws[1..])
      {
        PreorderMembers(nodes, root, ws[0], x);
        SiblingsDisjoint(nodes, root, d, ws, x);
        PreorderAllMembers(nodes, root, d, ws[1..], x);
      }
      NoRepeatsConcat(Preorder(nodes, root, ws[0]), PreorderAll(nodes, root, d, ws[1..]));
    }
  }

  /** The listing from the root goes through every wrapper that has been added, and the root,
      exactly once, and through nothing else. */
  lemma PreorderIsExact(nodes: set<Wrapper>, root: Wrapper)
    requires Tree(nodes, root)
    ensures Node(nodes, root, root)
    ensures NoRepeats(Preorder(nodes, root, root))
    ensures forall w :: w in Preorder(nodes, root, root) <==> w in nodes && w.router
  {
    assert Node(nodes, root, root);
    PreorderNoRepeats(nodes, root, root);
    forall w
      ensures w in Preorder(nodes, root, root) <==> w in nodes && w.router
    {
      PreorderMembers(nodes, root, root, w);
      if w in nodes && w.router {
        Acyclic(nodes, root, w, w.depth);
      }
    }
  }
}
