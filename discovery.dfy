/** The discovery walk of `listDir`: a depth-first traversal of the
    directory tree below the top path, whose only effect is to append one
    descriptor per usable `instance.cmd` file, in directory order. Levels:
    0 the top directory, 1 a stage, 2 a directory whose name starts with
    "ioc", 3 an instance directory holding the `instance.cmd` files. */
module Discovery {
  import opened CString
  import opened Config

  /** What `readdir` lists. A `Dir` is an entry of type DT_DIR that `opendir`
      can open, a `Sealed` one it cannot; every other entry type is a
      `File` (opened with `fopen` when it is considered at all). */
  datatype Entry =
    | Dir(name: seq<char>, children: seq<Entry>)
    | Sealed(name: seq<char>)
    | File(name: seq<char>, text: FileText)

  const IocDirPrefix: seq<char> := "ioc"
  const InstanceFilePrefix: seq<char> := "instance.cmd"

  predicate IsDot(n: seq<char>)
  {
    n == "." || n == ".."
  }

  /** Whether a sub-directory is entered at `level` (`assert(1 == 0)` marks
      levels above 3 unreachable, and they are). */
  predicate Recurses(name: seq<char>, level: nat)
  {
    level == 0 || (level == 1 && PrefixMatches(name, IocDirPrefix, 3)) || level == 2
  }

  /** `listDir(path, level)` where `e` is what `opendir(path)` finds: the
      descriptors it adds, in order. */
  function Discover(e: Entry, path: seq<char>, level: nat): seq<Descriptor>
    requires level <= 3
    decreases e, 1
  {
    if e.Dir? then DiscoverIn(e.children, path, level) else []
  }

  /** The `readdir` loop over the entries `cs` of the directory `path`. */
  function DiscoverIn(cs: seq<Entry>, path: seq<char>, level: nat): seq<Descriptor>
    requires level <= 3
    decreases cs, 0
  {
    if cs == [] then []
    else DiscoverIn(cs[..|cs| - 1], path, level) + Visit(cs[|cs| - 1], path, level)
  }

  /** One entry of the loop. */
  function Visit(c: Entry, path: seq<char>, level: nat): seq<Descriptor>
    requires level <= 3
    decreases c, 2
  {
    match c
    case File(name, text) =>
      if level == 3 && PrefixMatches(name, InstanceFilePrefix, 12) then
        match Describe(path, text)
        case Some(d) => [d]
        case None => []
      else []
    case _ =>
      if IsDot(c.name) || !Recurses(c.name, level) then []
      else Discover(c, Join(path, c.name), level + 1)
  }

  /* ---------------------------------------------------------------------
     The same search, written by depth: stage directories, their "ioc*"
     directories, the instance directories in those, and the instance.cmd
     files in each. The descriptor takes the stage directory's own path and
     the instance directory's own name, with no dirname/basename.
     --------------------------------------------------------------------- */

  function FromRoot(cs: seq<Entry>, root: seq<char>): seq<Descriptor>
    decreases |cs|
  {
    if cs == [] then []
    else
      var c := cs[|cs| - 1];
      FromRoot(cs[..|cs| - 1], root)
        + (if c.Dir? && !IsDot(c.name) then FromStage(c.children, Join(root, c.name)) else [])
  }

  function FromStage(cs: seq<Entry>, stagePath: seq<char>): seq<Descriptor>
    decreases |cs|
  {
    if cs == [] then []
    else
      var c := cs[|cs| - 1];
      FromStage(cs[..|cs| - 1], stagePath)
        + (if c.Dir? && PrefixMatches(c.name, IocDirPrefix, 3) then FromIocDir(c.children, stagePath) else [])
  }

  function FromIocDir(cs: seq<Entry>, stagePath: seq<char>): seq<Descriptor>
    decreases |cs|
  {
    if cs == [] then []
    else
      var c := cs[|cs| - 1];
      FromIocDir(cs[..|cs| - 1], stagePath)
        + (if c.Dir? && !IsDot(c.name) then FromInstance(c.children, stagePath, c.name) else [])
  }

  function FromInstance(cs: seq<Entry>, stagePath: seq<char>, instanceName: seq<char>): seq<Descriptor>
    decreases |cs|
  {
    if cs == [] then []
    else
      var c := cs[|cs| - 1];
      FromInstance(cs[..|cs| - 1], stagePath, instanceName)
        + (if c.File? && PrefixMatches(c.name, InstanceFilePrefix, 12) && c.text.Text? then
             match Assemble(stagePath, instanceName, Collect(c.text.lines))
             case Some(d) => [d]
             case None => []
           else [])
  }

  /** Every name in the tree is a real directory-entry name. */
  predicate Named(e: Entry)
    decreases e
  {
    IsName(e.name) && (e.Dir? ==> forall i :: 0 <= i < |e.children| ==> Named(e.children[i]))
  }

  predicate AllNamed(cs: seq<Entry>)
  {
    forall i :: 0 <= i < |cs| ==> Named(cs[i])
  }

  /** At level 3 the walk only reads the instance.cmd files, and names the
      descriptor after the directory path. */
  lemma {:induction false} InstanceLevel(cs: seq<Entry>, p: seq<char>)
    ensures DiscoverIn(cs, p, 3) == FromInstance(cs, StagePath(p), Basename(p))
    decreases |cs|
  {
    if cs != [] {
      InstanceLevel(cs[..|cs| - 1], p);
      InstanceItem(cs[|cs| - 1], p);
    }
  }

  lemma InstanceItem(c: Entry, p: seq<char>)
    ensures Visit(c, p, 3) ==
              if c.File? && PrefixMatches(c.name, InstanceFilePrefix, 12) && c.text.Text? then
                match Assemble(StagePath(p), Basename(p), Collect(c.text.lines))
                case Some(d) => [d]
                case None => []
              else []
  {
  }

  lemma InitNamed(cs: seq<Entry>)
    requires cs != [] && AllNamed(cs)
    ensures AllNamed(cs[..|cs| - 1]) && Named(cs[|cs| - 1])
  {
    assert forall i :: 0 <= i < |cs| - 1 ==> cs[..|cs| - 1][i] == cs[i];
  }

  lemma IocDirItem(c: Entry, stagePath: seq<char>, ioc: seq<char>)
    requires stagePath != [] && stagePath[|stagePath| - 1] != '/' && IsName(ioc)
    requires Named(c)
    ensures Visit(c, Join(stagePath, ioc), 2) ==
              if c.Dir? && !IsDot(c.name) then FromInstance(c.children, stagePath, c.name) else []
  {
    if c.Dir? && !IsDot(c.name) {
      var p := Join(Join(stagePath, ioc), c.name);
      assert Visit(c, Join(stagePath, ioc), 2) == DiscoverIn(c.children, p, 3);
      InstanceLevel(c.children, p);
      InstancePathNames(stagePath, ioc, c.name);
    }
  }

  /** At level 2 every sub-directory is an instance directory. */
  lemma {:induction false} IocDirLevel(cs: seq<Entry>, stagePath: seq<char>, ioc: seq<char>)
    requires stagePath != [] && stagePath[|stagePath| - 1] != '/' && IsName(ioc)
    requires AllNamed(cs)
    ensures DiscoverIn(cs, Join(stagePath, ioc), 2) == FromIocDir(cs, stagePath)
    decreases |cs|
  {
    if cs != [] {
      InitNamed(cs);
      IocDirLevel(cs[..|cs| - 1], stagePath, ioc);
      IocDirItem(cs[|cs| - 1], stagePath, ioc);
    }
  }

  lemma StageItem(c: Entry, stagePath: seq<char>)
    requires stagePath != [] && stagePath[|stagePath| - 1] != '/'
    requires Named(c)
    ensures Visit(c, stagePath, 1) ==
              if c.Dir? && PrefixMatches(c.name, IocDirPrefix, 3) then FromIocDir(c.children, stagePath) else []
  {
    if c.Dir? && PrefixMatches(c.name, IocDirPrefix, 3) {
      assert c.name[0] == 'i';
      assert Visit(c, stagePath, 1) == DiscoverIn(c.children, Join(stagePath, c.name), 2);
      assert AllNamed(c.children);
      IocDirLevel(c.children, stagePath, c.name);
    }
  }

  /** At level 1 only the "ioc*" directories are entered. */
  lemma {:induction false} StageLevel(cs: seq<Entry>, stagePath: seq<char>)
    requires stagePath != [] && stagePath[|stagePath| - 1] != '/'
    requires AllNamed(cs)
    ensures DiscoverIn(cs, stagePath, 1) == FromStage(cs, stagePath)
    decreases |cs|
  {
    if cs != [] {
      InitNamed(cs);
      StageLevel(cs[..|cs| - 1], stagePath);
      StageItem(cs[|cs| - 1], stagePath);
    }
  }

  lemma RootItem(c: Entry, root: seq<char>)
    requires Named(c)
    ensures Visit(c, root, 0) ==
              if c.Dir? && !IsDot(c.name) then FromStage(c.children, Join(root, c.name)) else []
  {
    if c.Dir? && !IsDot(c.name) {
      var sp := Join(root, c.name);
      assert sp[|sp| - 1] == c.name[|c.name| - 1];
      assert Visit(c, root, 0) == DiscoverIn(c.children, sp, 1);
      assert AllNamed(c.children);
      StageLevel(c.children, sp);
    }
  }

  /** At level 0 every sub-directory is a stage. */
  lemma {:induction false} RootLevel(cs: seq<Entry>, root: seq<char>)
    requires AllNamed(cs)
    ensures DiscoverIn(cs, root, 0) == FromRoot(cs, root)
    decreases |cs|
  {
    if cs != [] {
      InitNamed(cs);
      RootLevel(cs[..|cs| - 1], root);
      RootItem(cs[|cs| - 1], root);
    }
  }

  /** The walk from the top directory finds exactly the instances the
      depth-by-depth search finds, in the same order. */
  lemma WalkMatchesLayout(top: Entry, root: seq<char>)
    requires Named(top)
    ensures Discover(top, root, 0) == (if top.Dir? then FromRoot(top.children, root) else [])
  {
    if top.Dir? {
      assert AllNamed(top.children);
      RootLevel(top.children, root);
    }
  }
}
