/** The recursive walk, which keeps the path of the file it is at in one buffer that it edits in place. */
module Walker {
  import opened CString
  import opened Tree

  /** The seven counters. */
  datatype Counters = Counters(nreg: nat, ndir: nat, nblk: nat, nchr: nat, nfifo: nat, nslink: nat, nsock: nat) {

    function Of(what: What): nat {
      match what
      case Directory => ndir
      case Other(Regular) => nreg
      case Other(CharDevice) => nchr
      case Other(BlockDevice) => nblk
      case Other(Fifo) => nfifo
      case Other(SymLink) => nslink
      case Other(Socket) => nsock
      case Other(Unknown) => 0
    }
  }

  function Counted(c: Counters, what: What): Counters {
    match what
    case Directory => c.(ndir := c.ndir + 1)
    case Other(Regular) => c.(nreg := c.nreg + 1)
    case Other(CharDevice) => c.(nchr := c.nchr + 1)
    case Other(BlockDevice) => c.(nblk := c.nblk + 1)
    case Other(Fifo) => c.(nfifo := c.nfifo + 1)
    case Other(SymLink) => c.(nslink := c.nslink + 1)
    case Other(Socket) => c.(nsock := c.nsock + 1)
    case Other(Unknown) => c
  }

  /** The counters after a walk of n. */
  function CountedAll(c: Counters, n: Node): Counters
    decreases n
  {
    var own := Counted(c, WhatIs(n));
    if n.Dir? then CountedIn(own, n.entries) else own
  }

  function CountedIn(c: Counters, e: Entries): Counters
    decreases e
  {
    match e
    case NoMore => c
    case More(name, n, rest) => CountedIn(if Dots(name) then c else CountedAll(c, n), rest)
  }

  /** Each counter grows by the number of nodes of its kind. */
  lemma {:induction false} CountersTally(c: Counters, n: Node, what: What)
    requires what != Other(Unknown)
    ensures CountedAll(c, n).Of(what) == c.Of(what) + Nodes(n, what)
    decreases n
  {
    if n.Dir? {
      CountersTallyIn(Counted(c, Directory), n.entries, what);
    }
  }

  lemma {:induction false} CountersTallyIn(c: Counters, e: Entries, what: What)
    requires what != Other(Unknown)
    ensures CountedIn(c, e).Of(what) == c.Of(what) + NodesOf(e, what)
    decreases e
  {
    match e
    case NoMore =>
    case More(name, n, rest) =>
      CountersTally(c, n, what);
      CountersTallyIn(if Dots(name) then c else CountedAll(c, n), rest, what);
  }

  /** What the seven counters have become after a walk. */
  lemma WalkTallies(c: Counters, n: Node)
    ensures CountedAll(c, n) == Counters(
              c.nreg + Nodes(n, Other(Regular)), c.ndir + Nodes(n, Directory), c.nblk + Nodes(n, Other(BlockDevice)),
              c.nchr + Nodes(n, Other(CharDevice)), c.nfifo + Nodes(n, Other(Fifo)),
              c.nslink + Nodes(n, Other(SymLink)), c.nsock + Nodes(n, Other(Socket)))
  {
    CountersTally(c, n, Directory);
    CountersTally(c, n, Other(Regular));
    CountersTally(c, n, Other(CharDevice));
    CountersTally(c, n, Other(BlockDevice));
    CountersTally(c, n, Other(Fifo));
    CountersTally(c, n, Other(SymLink));
    CountersTally(c, n, Other(Socket));
  }

  class Process {
    const root: Node
    const fullpath: array<char>
    var nreg: nat
    var ndir: nat
    var nblk: nat
    var nchr: nat
    var nfifo: nat
    var nslink: nat
    var nsock: nat
    var output: seq<Visit>

    ghost function Tally(): Counters
      reads this
    {
      Counters(nreg, ndir, nblk, nchr, nfifo, nslink, nsock)
    }

    constructor (root: Node, length: nat)
      ensures this.root == root && fullpath.Length == length && fresh(fullpath)
      ensures output == [] && Tally() == Counters(0, 0, 0, 0, 0, 0, 0)
    {
      this.root := root;
      fullpath := new char[length](_ => '\0');
      nreg, ndir, nblk, nchr, nfifo, nslink, nsock := 0, 0, 0, 0, 0, 0, 0;
      output := [];
    }

    /** get_file_type: one line of output, one counter. */
    method GetFileType(what: What, ghost path: string)
      requires Holds(fullpath, 0, path)
      modifies this
      ensures output == old(output) + [Visit(path, what)]
      ensures Tally() == Counted(old(Tally()), what)
    {
      TextIs(fullpath, 0, path);
      output := output + [Visit(Text(fullpath), what)];
      match what {
        case Other(Regular) => nreg := nreg + 1;
        case Other(CharDevice) => nchr := nchr + 1;
        case Other(BlockDevice) => nblk := nblk + 1;
        case Other(Fifo) => nfifo := nfifo + 1;
        case Other(SymLink) => nslink := nslink + 1;
        case Other(Socket) => nsock := nsock + 1;
        case Other(Unknown) =>
        case Directory => ndir := ndir + 1;
      }
    }

    /** lstat and opendir: what is found under the path in the buffer */
    method Lookup(ghost path: string, ghost node: Node) returns (file: Node)
      requires Holds(fullpath, 0, path) && LookupFrom(root, path) == Found(node)
      ensures file == node
    {
      TextIs(fullpath, 0, path);
      file := LookupFrom(root, Text(fullpath)).node;
    }

    /** A slash is added to the path. */
    method Enter(ghost path: string) returns (n: nat)
      requires Holds(fullpath, 0, path) && |path| + 1 < fullpath.Length
      modifies fullpath
      ensures n == |path| + 1 && Holds(fullpath, 0, path + "/")
    {
      n := Length(fullpath, path);
      fullpath[n] := '/';
      n := n + 1;
      fullpath[n] := '\0';
    }

    /** The path ends again where its last slash is. */
    method Leave(n: nat, ghost path: string)
      requires n == |path| + 1 && Begins(fullpath, path + "/")
      modifies fullpath
      ensures Holds(fullpath, 0, path)
    {
      assert forall i | 0 <= i < |path| :: (path + "/")[i] == path[i];
      fullpath[n - 1] := '\0';
    }

    /** do_recur_path */
    method DoRecurPath(ghost path: string, ghost node: Node)
      requires Holds(fullpath, 0, path) && LookupFrom(root, path) == Found(node)
      requires WellFormed(node) && |path| + Room(node) < fullpath.Length
      modifies this, fullpath
      ensures Holds(fullpath, 0, path)
      ensures output == old(output) + Visits(path, node)
      ensures Tally() == CountedAll(old(Tally()), node)
      decreases node
    {
      var file := Lookup(path, node);
      if !file.Dir? {
        GetFileType(WhatIs(file), path);
        return;
      }
      GetFileType(Directory, path);
      var n := Enter(path);
      ghost var prefix := path + "/";
      BeginsWith(fullpath, prefix, "");
      LookupJoins(root, path, "/");
      var dp := Lookup(prefix, node);
      var entries := dp.entries;
      while entries.More?
        invariant n == |prefix|
        invariant Begins(fullpath, prefix)
        invariant entries == node.entries || entries < node.entries
        invariant WellFormedEntries(entries) && n + RoomOf(entries) < fullpath.Length
        invariant Among(entries, node.entries)
        invariant output + VisitsOf(prefix, entries) == old(output) + Visits(path, node)
        invariant CountedIn(Tally(), entries) == CountedAll(old(Tally()), node)
        decreases entries
      {
        VisitEntry(n, path, node.entries, entries);
        AmongRest(entries, node.entries);
        entries := entries.rest;
      }
      Leave(n, path);
    }

    /** One turn of its loop, with the first of the entries e that are still to be read. */
    method VisitEntry(n: nat, ghost path: string, ghost all: Entries, e: Entries)
      requires n == |path| + 1 && Begins(fullpath, path + "/")
      requires LookupFrom(root, path) == Found(Dir(all))
      requires e.More? && WellFormedEntries(e) && n + RoomOf(e) < fullpath.Length && Among(e, all)
      modifies this, fullpath
      ensures Begins(fullpath, path + "/")
      ensures output + VisitsOf(path + "/", e.rest) == old(output) + VisitsOf(path + "/", e)
      ensures CountedIn(Tally(), e.rest) == CountedIn(old(Tally()), e)
      decreases e
    {
      var name := e.name;
      VisitsGoOn(output, path + "/", e);
      if name == "." || name == ".." {
        return;
      }
      ChildIsFound(root, path, all, e);
      Copy(fullpath, n, path + "/", name);
      DoRecurPath(path + "/" + name, e.node);
      BeginsWith(fullpath, path + "/", name);
    }

    /** main: walks from an absolute path, and prints the counters. */
    method ReadDirectories(path: string, ghost node: Node) returns (totals: seq<(string, nat)>)
      requires output == [] && Tally() == Counters(0, 0, 0, 0, 0, 0, 0)
      requires LookupFrom(root, path) == Found(node) && WellFormed(node)
      requires |path| + Room(node) < fullpath.Length && forall i | 0 <= i < |path| :: path[i] != '\0'
      modifies this, fullpath
      ensures output == Visits(path, node)
      ensures totals == [
                ("regular files", Nodes(node, Other(Regular))), ("directories", Nodes(node, Directory)),
                ("block special", Nodes(node, Other(BlockDevice))), ("char special", Nodes(node, Other(CharDevice))),
                ("FIFOs", Nodes(node, Other(Fifo))), ("symbolic links", Nodes(node, Other(SymLink))),
                ("sockets", Nodes(node, Other(Socket)))]
    {
      WalkTallies(Tally(), node);
      Copy(fullpath, 0, "", path);
      assert "" + path == path;
      DoRecurPath(path, node);
      totals := [
        ("regular files", nreg), ("directories", ndir), ("block special", nblk), ("char special", nchr),
        ("FIFOs", nfifo), ("symbolic links", nslink), ("sockets", nsock)];
    }
  }

  lemma VisitsGoOn(output: seq<Visit>, prefix: string, e: Entries)
    requires e.More?
    ensures output + VisitsOf(prefix, e) ==
            (if Dots(e.name) then output else output + Visits(prefix + e.name, e.node)) + VisitsOf(prefix, e.rest)
  {
  }

  /** Entries of a directory that are still to be read. */
  ghost predicate Among(e: Entries, all: Entries) {
    forall name | name in Names(e) :: Find(all, name) == Find(e, name)
  }

  lemma AmongRest(e: Entries, all: Entries)
    requires e.More? && WellFormedEntries(e) && Among(e, all)
    ensures Among(e.rest, all)
  {
    forall name | name in Names(e.rest)
      ensures Find(all, name) == Find(e.rest, name)
    {
      assert name in Names(e);
    }
  }

  lemma ChildIsFound(root: Node, path: string, all: Entries, e: Entries)
    requires LookupFrom(root, path) == Found(Dir(all))
    requires e.More? && WellFormedEntries(e) && Among(e, all)
    ensures !Dots(e.name) ==> LookupFrom(root, path + "/" + e.name) == Found(e.node)
  {
    if !Dots(e.name) {
      assert e.name in Names(e);
      LookupJoins(root, path, "/" + e.name);
      LookupStep(all, e.name, "");
      assert "/" + e.name + "" == "/" + e.name;
      assert path + "/" + e.name == path + ("/" + e.name);
    }
  }
}
