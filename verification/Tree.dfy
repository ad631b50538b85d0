/** File trees, the order in which they are walked, and what a path in one stands for. */
module Tree {
  import opened Counting

  /** The kinds of file other than a directory; Unknown is none of those that the program counts. */
  datatype Kind = Regular | CharDevice | BlockDevice | Fifo | SymLink | Socket | Unknown

  datatype Node = File(kind: Kind) | Dir(entries: Entries)

  /** What readdir delivers, one entry after the other. */
  datatype Entries = NoMore | More(name: string, node: Node, rest: Entries)

  datatype What = Directory | Other(kind: Kind)

  /** One line of output. */
  datatype Visit = Visit(path: string, what: What)

  function WhatIs(n: Node): What {
    match n
    case Dir(_) => Directory
    case File(kind) => Other(kind)
  }

  predicate Dots(name: string) {
    name == "." || name == ".."
  }

  /** A directory before its contents, and those in the order of readdir. */
  function Visits(path: string, n: Node): seq<Visit>
    decreases n
  {
    match n
    case File(_) => [Visit(path, WhatIs(n))]
    case Dir(entries) => [Visit(path, WhatIs(n))] + VisitsOf(path + "/", entries)
  }

  function VisitsOf(prefix: string, e: Entries): seq<Visit>
    decreases e
  {
    match e
    case NoMore => []
    case More(name, n, rest) => (if Dots(name) then [] else Visits(prefix + name, n)) + VisitsOf(prefix, rest)
  }

  /** The names in a list of entries, without the dots. */
  function Names(e: Entries): set<string> {
    match e
    case NoMore => {}
    case More(name, _, rest) => (if Dots(name) then {} else {name}) + Names(rest)
  }

  predicate ProperName(name: string) {
    name != "" && forall i | 0 <= i < |name| :: name[i] != '/' && name[i] != '\0'
  }

  /** Names within a directory are distinct, not empty and free of slashes. */
  predicate WellFormed(n: Node) {
    n.Dir? ==> WellFormedEntries(n.entries)
  }

  predicate WellFormedEntries(e: Entries) {
    match e
    case NoMore => true
    case More(name, n, rest) =>
      ProperName(name) && (!Dots(name) ==> WellFormed(n) && name !in Names(rest)) && WellFormedEntries(rest)
  }

  /** How much longer than its own path the paths below a node become, a last slash included. */
  function Room(n: Node): nat {
    match n
    case File(_) => 0
    case Dir(entries) => 1 + RoomOf(entries)
  }

  function RoomOf(e: Entries): nat {
    match e
    case NoMore => 0
    case More(name, n, rest) =>
      var room := if Dots(name) then 0 else |name| + Room(n);
      if room > RoomOf(rest) then room else RoomOf(rest)
  }

  // What a path stands for.

  datatype Lookup = Missing | Found(node: Node)

  function Find(e: Entries, name: string): Lookup {
    match e
    case NoMore => Missing
    case More(x, n, rest) => if x == name && !Dots(x) then Found(n) else Find(rest, name)
  }

  /** The name that a string begins with. */
  function Component(s: string): (name: string)
    ensures |name| <= |s| && s[..|name|] == name
    ensures forall i | 0 <= i < |name| :: name[i] != '/'
    ensures |name| < |s| ==> s[|name|] == '/'
  {
    if s == "" || s[0] == '/' then "" else [s[0]] + Component(s[1..])
  }

  /** The node that one gets to from n along a path; slashes in a row count as one, and a last one wants a directory. */
  function LookupFrom(n: Node, path: string): Lookup
    decreases |path|
  {
    if path == "" then Found(n)
    else if path[0] != '/' || !n.Dir? then Missing
    else if path == "/" then Found(n)
    else if path[1] == '/' then LookupFrom(n, path[1..])
    else
      var name := Component(path[1..]);
      match Find(n.entries, name)
      case Missing => Missing
      case Found(child) => LookupFrom(child, path[1 + |name|..])
  }

  lemma {:induction false} ComponentIs(name: string, rest: string)
    requires (forall i | 0 <= i < |name| :: name[i] != '/') && (rest == "" || rest[0] == '/')
    ensures Component(name + rest) == name
  {
    if name == "" {
      assert name + rest == rest;
    } else {
      assert (name + rest)[1..] == name[1..] + rest;
      ComponentIs(name[1..], rest);
    }
  }

  /** One step down a path. */
  lemma LookupStep(e: Entries, name: string, rest: string)
    requires ProperName(name) && (rest == "" || rest[0] == '/')
    ensures LookupFrom(Dir(e), "/" + name + rest) ==
            if Find(e, name).Found? then LookupFrom(Find(e, name).node, rest) else Missing
  {
    var path := "/" + name + rest;
    assert path[1..] == name + rest;
    ComponentIs(name, rest);
    assert path[1 + |name|..] == rest;
    assert path[1] == name[0];
  }

  /** Going on along a path from where another one leads. */
  lemma {:induction false} LookupJoins(n: Node, path: string, rest: string)
    requires LookupFrom(n, path).Found? && rest != "" && rest[0] == '/'
    requires LookupFrom(n, path).node.Dir?
    ensures LookupFrom(n, path + rest) == LookupFrom(LookupFrom(n, path).node, rest)
    decreases |path|
  {
    if path == "" {
      assert path + rest == rest;
    } else if path == "/" {
      assert (path + rest)[1..] == rest;
    } else if path[1] == '/' {
      assert (path + rest)[1..] == path[1..] + rest;
      LookupJoins(n, path[1..], rest);
    } else {
      var name := Component(path[1..]);
      var below := path[1 + |name|..];
      assert path[1..] == name + below;
      assert (path + rest)[1..] == name + (below + rest);
      ComponentIs(name, below + rest);
      assert (path + rest)[1 + |name|..] == below + rest;
      LookupJoins(Find(n.entries, name).node, below, rest);
    }
  }

  lemma {:induction false} FindIffNamed(e: Entries, name: string)
    ensures Find(e, name).Found? <==> name in Names(e)
  {
    match e
    case NoMore =>
    case More(_, _, rest) => FindIffNamed(rest, name);
  }

  ghost predicate Listed(e: Entries, name: string, n: Node) {
    e.More? && ((e.name == name && e.node == n) || Listed(e.rest, name, n))
  }

  /** Every entry of a directory is found under its name, except for . and .. */
  lemma {:induction false} FoundIffListed(e: Entries, name: string, n: Node)
    requires WellFormedEntries(e)
    ensures Find(e, name) == Found(n) <==> Listed(e, name, n) && name != "." && name != ".."
  {
    if e.More? {
      FoundIffListed(e.rest, name, n);
      if Listed(e.rest, name, n) && name != "." && name != ".." {
        ListedIsNamed(e.rest, name, n);
      }
    }
  }

  lemma {:induction false} ListedIsNamed(e: Entries, name: string, n: Node)
    requires Listed(e, name, n) && name != "." && name != ".."
    ensures name in Names(e)
  {
    if e.name != name {
      ListedIsNamed(e.rest, name, n);
    }
  }

  lemma {:induction false} NamesAreProper(e: Entries, name: string)
    requires WellFormedEntries(e) && name in Names(e)
    ensures ProperName(name) && !Dots(name)
  {
    if name in Names(e.rest) {
      NamesAreProper(e.rest, name);
    }
  }

  // Every node is visited once, under a path that leads to it.

  /** A path in which every slash is followed by a name. */
  predicate Canonical(path: string) {
    forall i | 0 <= i < |path| && path[i] == '/' :: Followed(path, i)
  }

  predicate Followed(path: string, i: nat) {
    i + 1 < |path| && path[i + 1] != '/'
  }

  predicate IsA(n: Node, what: What) {
    match what
    case Directory => n.Dir?
    case Other(kind) => n == File(kind)
  }

  /** v reports what is at the end of a path that goes on from p, at which n stands. */
  predicate Leads(p: string, n: Node, v: Visit) {
    && p <= v.path
    && var below := v.path[|p|..];
       Canonical(below) && LookupFrom(n, below).Found? && IsA(LookupFrom(n, below).node, v.what)
  }

  /** The first name of a path below p. */
  function Branch(p: string, path: string): string {
    if p + "/" <= path then Component(path[|p| + 1..]) else ""
  }

  /** A path whose first name below p is the given one. */
  lemma BranchIs(p: string, name: string, below: string)
    requires ProperName(name) && (below == "" || below[0] == '/')
    ensures Branch(p, p + "/" + name + below) == name
  {
    var path := p + "/" + name + below;
    assert path[|p| + 1..] == name + below;
    ComponentIs(name, below);
  }

  lemma BranchLeads(p: string, path: string)
    requires Branch(p, path) != ""
    ensures p + "/" + Branch(p, path) <= path
    ensures var below := path[|p + "/" + Branch(p, path)|..]; below == "" || below[0] == '/'
  {
    var rest := path[|p| + 1..];
    var name := Component(rest);
    var below := rest[|name|..];
    assert path == p + "/" + rest;
    assert rest == name + below;
    BehindName(p + "/", name, below, path);
  }

  lemma BehindName(prefix: string, name: string, below: string, path: string)
    requires path == prefix + (name + below)
    ensures prefix + name <= path && path[|prefix + name|..] == below
  {
    assert path == prefix + name + below;
  }

  /** What is below one entry of a directory is below the directory. */
  lemma LeadsThrough(p: string, e: Entries, name: string, below: string, what: What)
    requires ProperName(name) && Find(e, name).Found? && (below == "" || below[0] == '/')
    ensures var v := Visit(p + "/" + name + below, what);
            Leads(p + "/" + name, Find(e, name).node, v) <==> Leads(p, Dir(e), v)
  {
    var path := p + "/" + name + below;
    assert path[|p|..] == "/" + name + below;
    assert path[|p + "/" + name|..] == below;
    LookupStep(e, name, below);
    CanonicalStep(name, below);
  }

  /** Of the visits below a directory, those below one entry. */
  lemma LeadsUp(p: string, e: Entries, name: string, v: Visit)
    requires ProperName(name) && Find(e, name).Found?
    ensures Leads(p + "/" + name, Find(e, name).node, v) <==>
            Leads(p, Dir(e), v) && v.path != p && Branch(p, v.path) == name
  {
    var child := p + "/" + name;
    if child <= v.path {
      var below := v.path[|child|..];
      assert v.path == child + below;
      if below == "" || below[0] == '/' {
        LeadsThrough(p, e, name, below, v.what);
        BranchIs(p, name, below);
      } else if Branch(p, v.path) == name {
        BranchLeads(p, v.path);
      }
    } else if Branch(p, v.path) == name {
      BranchLeads(p, v.path);
    }
  }

  lemma CanonicalStep(name: string, below: string)
    requires ProperName(name) && (below == "" || below[0] == '/')
    ensures Canonical("/" + name + below) <==> Canonical(below)
  {
    var q, k := "/" + name + below, 1 + |name|;
    assert q[1] == name[0];
    assert forall i | 1 <= i < k :: q[i] == name[i - 1];
    assert forall i | 0 <= i < |below| :: q[k + i] == below[i];
    if Canonical(q) {
      forall i | 0 <= i < |below| && below[i] == '/'
        ensures Followed(below, i)
      {
        assert Followed(q, k + i);
      }
    }
    if Canonical(below) {
      forall i | 0 <= i < |q| && q[i] == '/'
        ensures Followed(q, i)
      {
        if i > 0 {
          assert Followed(below, i - k);
        }
      }
    }
  }

  /** An entry is found through the first name of a path. */
  lemma LeadsDown(p: string, e: Entries, v: Visit)
    requires Leads(p, Dir(e), v) && v.path != p
    ensures Branch(p, v.path) in Names(e)
  {
    var q := v.path[|p|..];
    assert v.path == p + q;
    assert Followed(q, 0);
    FindIffNamed(e, Component(q[1..]));
    assert p + "/" <= v.path;
    assert v.path[|p| + 1..] == q[1..];
  }

  /** Entries that are not taken do not matter. */
  lemma LeadsSkips(p: string, e: Entries, v: Visit)
    requires e.More? && v.path != p
    requires Dots(e.name) || e.name != Branch(p, v.path)
    ensures Leads(p, Dir(e), v) <==> Leads(p, Dir(e.rest), v)
  {
    if p <= v.path && Canonical(v.path[|p|..]) {
      var q := v.path[|p|..];
      assert v.path == p + q;
      if q[0] == '/' {
        assert Followed(q, 0);
        assert p + "/" <= v.path;
        assert v.path[|p| + 1..] == q[1..];
      }
    }
  }

  /** Exactly the nodes below n are reported, each once, with its path and what it is. */
  lemma {:induction false} VisitedOnce(p: string, n: Node, v: Visit)
    requires WellFormed(n)
    ensures multiset(Visits(p, n))[v] == if Leads(p, n, v) then 1 else 0
    decreases n
  {
    assert v.path == p ==> v.path[|p|..] == "";
    if n.Dir? {
      VisitedOnceBelow(p, n.entries, v);
    } else if p <= v.path && v.path != p {
      assert v.path == p + v.path[|p|..];
    }
  }

  lemma {:induction false} VisitedOnceBelow(p: string, e: Entries, v: Visit)
    requires WellFormedEntries(e)
    ensures multiset(VisitsOf(p + "/", e))[v] == if v.path != p && Leads(p, Dir(e), v) then 1 else 0
    decreases e
  {
    match e {
      case NoMore =>
        if v.path != p && Leads(p, Dir(e), v) {
          LeadsDown(p, e, v);
        }
      case More(name, n, rest) =>
        VisitedOnceBelow(p, rest, v);
        if v.path != p && (Dots(name) || name != Branch(p, v.path)) {
          LeadsSkips(p, e, v);
        }
        if !Dots(name) {
          VisitedOnce(p + "/" + name, n, v);
          LeadsUp(p, e, name, v);
          if v.path != p && Leads(p, Dir(rest), v) {
            LeadsDown(p, rest, v);
          }
        }
    }
  }

  /** A directory is reported before what is below it. */
  ghost predicate ParentsFirst(visits: seq<Visit>) {
    forall i, j | 0 <= i <= j < |visits| :: !(visits[j].path + "/" <= visits[i].path)
  }

  lemma {:induction false} DirectoriesFirst(p: string, n: Node)
    requires WellFormed(n)
    ensures ParentsFirst(Visits(p, n))
    decreases n
  {
    if n.Dir? {
      DirectoriesFirstBelow(p, n.entries);
      var below := VisitsOf(p + "/", n.entries);
      forall v | v in below
        ensures p <= v.path
      {
        VisitedOnceBelow(p, n.entries, v);
      }
    }
  }

  lemma {:induction false} DirectoriesFirstBelow(p: string, e: Entries)
    requires WellFormedEntries(e)
    ensures ParentsFirst(VisitsOf(p + "/", e))
    decreases e
  {
    if e.More? {
      DirectoriesFirstBelow(p, e.rest);
      if !Dots(e.name) {
        var first, second := Visits(p + "/" + e.name, e.node), VisitsOf(p + "/", e.rest);
        DirectoriesFirst(p + "/" + e.name, e.node);
        forall v, w | v in first && w in second
          ensures !(w.path + "/" <= v.path)
        {
          Apart(p, e, v, w);
        }
      }
    }
  }

  /** What is below one entry is not below what is reported for the others. */
  lemma Apart(p: string, e: Entries, v: Visit, w: Visit)
    requires WellFormedEntries(e) && e.More? && !Dots(e.name)
    requires v in Visits(p + "/" + e.name, e.node) && w in VisitsOf(p + "/", e.rest)
    ensures !(w.path + "/" <= v.path)
  {
    VisitedOnce(p + "/" + e.name, e.node, v);
    VisitedOnceBelow(p, e.rest, w);
    LeadsUp(p, e, e.name, v);
    LeadsDown(p, e.rest, w);
    var name := Branch(p, w.path);
    NamesAreProper(e.rest, name);
    BranchLeads(p, w.path);
    if w.path + "/" <= v.path {
      BranchOn(p, name, w.path, v.path);
    }
  }

  lemma BranchOn(p: string, name: string, path: string, longer: string)
    requires ProperName(name) && p + "/" + name <= path && path + "/" <= longer
    requires var below := path[|p + "/" + name|..]; below == "" || below[0] == '/'
    ensures Branch(p, longer) == name
  {
    var below := longer[|p + "/" + name|..];
    assert longer == p + "/" + name + below;
    assert longer[|path|] == '/';
    BranchIs(p, name, below);
  }

  // How many nodes of each kind there are.

  function Nodes(n: Node, w: What): nat {
    match n
    case File(kind) => if w == Other(kind) then 1 else 0
    case Dir(entries) => (if w == Directory then 1 else 0) + NodesOf(entries, w)
  }

  function NodesOf(e: Entries, w: What): nat {
    match e
    case NoMore => 0
    case More(name, n, rest) => (if Dots(name) then 0 else Nodes(n, w)) + NodesOf(rest, w)
  }

  /** The lines of output about each kind of file are as many as its nodes. */
  lemma {:induction false} LinesPerKind(p: string, n: Node, w: What)
    ensures Count(Visits(p, n), (v: Visit) => v.what == w) == Nodes(n, w)
    decreases n
  {
    var own := [Visit(p, WhatIs(n))];
    assert Count(own[1..], (v: Visit) => v.what == w) == 0;
    if n.Dir? {
      CountJoin(own, VisitsOf(p + "/", n.entries), (v: Visit) => v.what == w);
      LinesPerKindBelow(p + "/", n.entries, w);
    }
  }

  lemma {:induction false} LinesPerKindBelow(prefix: string, e: Entries, w: What)
    ensures Count(VisitsOf(prefix, e), (v: Visit) => v.what == w) == NodesOf(e, w)
    decreases e
  {
    match e
    case NoMore =>
    case More(name, n, rest) =>
      CountJoin(if Dots(name) then [] else Visits(prefix + name, n), VisitsOf(prefix, rest), (v: Visit) => v.what == w);
      LinesPerKind(prefix + name, n, w);
      LinesPerKindBelow(prefix, rest, w);
  }
}
