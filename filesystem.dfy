/**
 * The agent's file tools (read, write, edit, list, delete) over an abstract
 * filesystem: a map from an entry's real location to the entry. Everything
 * the operating system decides by itself (home-directory expansion, joining,
 * symlink resolution, lexical absolutisation, error texts) is a parameter.
 */
module FilesystemTools {
  import opened Wrappers
  import opened Text

  // ---------------------------------------------------------------------------
  // Paths and the filesystem
  // ---------------------------------------------------------------------------

  /** An absolute path as its components: "/a/b" is ["a", "b"], the root is []. */
  type Path = seq<string>

  /** `str(path)` of an absolute path. */
  function Show(p: Path): (r: string)
    ensures |r| >= 1 && r[0] == '/'
  {
    "/" + Join(p, "/")
  }

  /** `path.parent`; the root is its own parent. */
  function Parent(p: Path): (r: Path)
    ensures p != [] ==> p == r + [p[|p| - 1]]
    ensures p == [] ==> r == []
  {
    if p == [] then [] else p[..|p| - 1]
  }

  /** `p.is_relative_to(base)` for absolute paths: `base`'s components start `p`'s. */
  predicate IsRelativeTo(p: Path, base: Path) {
    base <= p
  }

  /**
   * The operating system's part: `expanduser`, `is_absolute`, `workspace / p`,
   * `Path(p).resolve()` of a path text, `os.path.abspath`, `resolve()` of an
   * absolute path, and the text of an error raised at a path.
   */
  datatype PathOps = PathOps(
    expandUser: string -> string,
    isAbsolute: string -> bool,
    join: (string, string) -> string,
    resolve: string -> Path,
    absPath: string -> Path,
    resolvePath: Path -> Path,
    errorText: Path -> string)

  /** A directory entry. Where a symlink leads is what `resolvePath` says. */
  datatype Node = File(content: string) | Dir | Symlink

  /** The filesystem: each entry under its real location. */
  type Nodes = map<Path, Node>

  /** What `p` leads to once links are followed; a dangling link leads nowhere. */
  function Followed(ops: PathOps, nodes: Nodes, p: Path): (r: Option<Node>)
    ensures r.Some? <==> ops.resolvePath(p) in nodes && !nodes[ops.resolvePath(p)].Symlink?
    ensures r.Some? ==> r.value == nodes[ops.resolvePath(p)]
  {
    var t := ops.resolvePath(p);
    if t in nodes && !nodes[t].Symlink? then Some(nodes[t]) else None
  }

  /** `p.exists()` */
  predicate Exists(ops: PathOps, nodes: Nodes, p: Path) {
    Followed(ops, nodes, p).Some?
  }

  /** `p.is_file()` */
  predicate IsFile(ops: PathOps, nodes: Nodes, p: Path) {
    Followed(ops, nodes, p).Some? && Followed(ops, nodes, p).value.File?
  }

  /** `p.is_dir()` */
  predicate IsDir(ops: PathOps, nodes: Nodes, p: Path) {
    Followed(ops, nodes, p) == Some(Dir)
  }

  /** Where the entry named by `p` itself lives: its parent resolved, then its own name. */
  function Location(ops: PathOps, p: Path): (r: Path)
    requires p != []
    ensures |r| > 0 && r[|r| - 1] == p[|p| - 1]
  {
    ops.resolvePath(Parent(p)) + [p[|p| - 1]]
  }

  /** `p.is_symlink()`: the entry itself, not followed, is a link. */
  predicate IsSymlink(ops: PathOps, nodes: Nodes, p: Path) {
    p != [] && Location(ops, p) in nodes && nodes[Location(ops, p)].Symlink?
  }

  /**
   * The operating system's resolution agrees with the filesystem: a path whose
   * own entry is not a link (it is missing, a file or a directory) resolves to
   * where that entry lives, its resolved parent followed by its name.
   */
  ghost predicate Coherent(ops: PathOps, nodes: Nodes) {
    forall p :: p != [] && !(Location(ops, p) in nodes && nodes[Location(ops, p)].Symlink?) ==>
      ops.resolvePath(p) == Location(ops, p)
  }

  /** The filesystem the tools act on. */
  class Disk {
    var nodes: Nodes

    constructor(nodes: Nodes)
      ensures this.nodes == nodes
    {
      this.nodes := nodes;
    }
  }

  /** The directory restriction a tool is built with. A `Path` object is always truthy. */
  datatype ToolConfig = ToolConfig(workspace: Option<string>, allowedDir: Option<string>)

  /** The result of an operation that may change the filesystem: the tool's reply and the new filesystem. */
  datatype Effect = Effect(message: string, nodes: Nodes)

  // ---------------------------------------------------------------------------
  // `_resolve_path`
  // ---------------------------------------------------------------------------

  /** `Path(path).expanduser()`, put under the workspace when it is relative. */
  function Anchored(ops: PathOps, path: string, workspace: Option<string>): (r: string)
    ensures ops.isAbsolute(ops.expandUser(path)) || workspace.None? ==> r == ops.expandUser(path)
  {
    var p := ops.expandUser(path);
    if !ops.isAbsolute(p) && workspace.Some? then ops.join(workspace.value, p) else p
  }

  function OutsideMessage(path: string, allowedDir: string): string {
    "Path " + path + " is outside allowed directory " + allowedDir
  }

  /** Some directory of `dirs`, resolved, contains `p`. */
  predicate InSomeDir(ops: PathOps, p: Path, dirs: seq<string>) {
    exists k :: 0 <= k < |dirs| && IsRelativeTo(p, ops.resolve(dirs[k]))
  }

  /**
   * `_resolve_path`: the anchored path, resolved. With an allowed directory the
   * result must lie inside it or inside one of the extra directories, or the
   * call fails with a permission error; without one there is no restriction.
   */
  function ResolvePath(ops: PathOps, path: string, workspace: Option<string>, allowedDir: Option<string>,
                       extraAllowedDirs: seq<string>): (r: Result<Path, string>)
    ensures r.Ok? ==> r.value == ops.resolve(Anchored(ops, path, workspace))
    ensures allowedDir.None? ==> r.Ok?
    ensures allowedDir.Some? ==>
      (r.Ok? <==> IsRelativeTo(ops.resolve(Anchored(ops, path, workspace)), ops.resolve(allowedDir.value))
                  || InSomeDir(ops, ops.resolve(Anchored(ops, path, workspace)), extraAllowedDirs))
    ensures r.Err? ==> r.error == OutsideMessage(path, allowedDir.value)
  {
    var resolved := ops.resolve(Anchored(ops, path, workspace));
    if allowedDir.Some? then
      if IsRelativeTo(resolved, ops.resolve(allowedDir.value)) then Ok(resolved)
      else if InSomeDir(ops, resolved, extraAllowedDirs) then Ok(resolved)
      else Err(OutsideMessage(path, allowedDir.value))
    else Ok(resolved)
  }

  /** Extra allowed directories only ever widen what resolves. */
  lemma ExtraDirsOnlyWiden(ops: PathOps, path: string, workspace: Option<string>, allowedDir: Option<string>,
                           extra: seq<string>, more: seq<string>)
    requires ResolvePath(ops, path, workspace, allowedDir, extra).Ok?
    ensures ResolvePath(ops, path, workspace, allowedDir, extra + more) == ResolvePath(ops, path, workspace, allowedDir, extra)
  {
    var resolved := ops.resolve(Anchored(ops, path, workspace));
    if allowedDir.Some? && !IsRelativeTo(resolved, ops.resolve(allowedDir.value)) {
      var k :| 0 <= k < |extra| && IsRelativeTo(resolved, ops.resolve(extra[k]));
      assert (extra + more)[k] == extra[k];
    }
  }

  /** An absolute path (after `~` expansion) does not depend on the workspace. */
  lemma AbsolutePathIgnoresWorkspace(ops: PathOps, path: string, w1: Option<string>, w2: Option<string>,
                                     allowedDir: Option<string>, extra: seq<string>)
    requires ops.isAbsolute(ops.expandUser(path))
    ensures ResolvePath(ops, path, w1, allowedDir, extra) == ResolvePath(ops, path, w2, allowedDir, extra)
  {
    assert Anchored(ops, path, w1) == Anchored(ops, path, w2);
  }

  // ---------------------------------------------------------------------------
  // read_file
  // ---------------------------------------------------------------------------

  /**
   * `ReadFileTool.execute`: the file's content as text mode reads it, with
   * universal newlines; otherwise the permission error, "not found" or "not a
   * file".
   */
  function ReadFile(ops: PathOps, nodes: Nodes, config: ToolConfig, extraAllowedDirs: seq<string>, path: string): (r: string)
    ensures var res := ResolvePath(ops, path, config.workspace, config.allowedDir, extraAllowedDirs);
      && (res.Err? ==> r == "Error: " + res.error)
      && (res.Ok? && !Exists(ops, nodes, res.value) ==> r == "Error: File not found: " + path)
      && (res.Ok? && Exists(ops, nodes, res.value) && !IsFile(ops, nodes, res.value) ==> r == "Error: Not a file: " + path)
      && (res.Ok? && IsFile(ops, nodes, res.value) ==> r == UniversalNewlines(nodes[ops.resolvePath(res.value)].content))
  {
    match ResolvePath(ops, path, config.workspace, config.allowedDir, extraAllowedDirs)
    case Err(e) => "Error: " + e
    case Ok(p) =>
      if !Exists(ops, nodes, p) then "Error: File not found: " + path
      else if !IsFile(ops, nodes, p) then "Error: Not a file: " + path
      else UniversalNewlines(Followed(ops, nodes, p).value.content)
  }

  // ---------------------------------------------------------------------------
  // write_file
  // ---------------------------------------------------------------------------

  /** The filesystem after a write, and the path of the error that stopped it, if any. */
  datatype WriteOutcome = WriteOutcome(nodes: Nodes, failedAt: Option<Path>)

  /** How the operating system's lookup of a directory path ends. */
  datatype Lookup = Found | Missing | NotDir

  /**
   * Looking `p` up as a directory, one component at a time from the root: it
   * stops at the first component that is missing (ENOENT) or that exists and
   * is not a directory (ENOTDIR).
   */
  function DirLookup(ops: PathOps, nodes: Nodes, p: Path): (r: Lookup)
    ensures r.Found? <==> IsDir(ops, nodes, p)
    decreases |p|
  {
    if IsDir(ops, nodes, p) then Found
    else if p != [] && !DirLookup(ops, nodes, Parent(p)).Found? then DirLookup(ops, nodes, Parent(p))
    else if Exists(ops, nodes, p) then NotDir
    else Missing
  }

  /** How one `os.mkdir(q)` ends. */
  datatype MkdirResult = Made(nodes: Nodes) | AlreadyThere | NoParent | ParentNotDir

  /**
   * `os.mkdir(q)`: an entry already at `q` (a path that resolves, or an entry of
   * any kind, a dangling link included, under the name) is EEXIST; otherwise
   * the lookup of the parent decides between creating `q`, ENOENT and ENOTDIR.
   */
  function Mkdir(ops: PathOps, nodes: Nodes, q: Path): (r: MkdirResult)
    ensures r.Made? <==> q != [] && !Exists(ops, nodes, q) && IsDir(ops, nodes, Parent(q)) && Location(ops, q) !in nodes
    ensures r.Made? ==> r.nodes == nodes[Location(ops, q) := Dir]
    ensures r.NoParent? <==> q != [] && !Exists(ops, nodes, q) && DirLookup(ops, nodes, Parent(q)).Missing?
    ensures r.ParentNotDir? <==> q != [] && !Exists(ops, nodes, q) && DirLookup(ops, nodes, Parent(q)).NotDir?
  {
    if q == [] || Exists(ops, nodes, q) then AlreadyThere
    else match DirLookup(ops, nodes, Parent(q))
      case Found => if Location(ops, q) in nodes then AlreadyThere else Made(nodes[Location(ops, q) := Dir])
      case Missing => NoParent
      case NotDir => ParentNotDir
  }

  /**
   * `q.mkdir(parents=True, exist_ok=True)`: `os.mkdir(q)` is tried first. On
   * ENOENT the parent is made and `os.mkdir(q)` tried once more; any other
   * error is forgiven only when `q` is then a directory, and is raised at `q`.
   * Existing entries are never changed, and only directories are added.
   */
  function MakeDirs(ops: PathOps, nodes: Nodes, q: Path): (r: WriteOutcome)
    ensures forall k :: k in nodes ==> k in r.nodes && r.nodes[k] == nodes[k]
    ensures forall k :: k in r.nodes && k !in nodes ==> r.nodes[k] == Dir
    ensures IsDir(ops, nodes, q) ==> r == WriteOutcome(nodes, None)
    decreases |q|
  {
    match Mkdir(ops, nodes, q)
    case Made(made) => WriteOutcome(made, None)
    case NoParent =>
      var up := MakeDirs(ops, nodes, Parent(q));
      if up.failedAt.Some? then up
      else (match Mkdir(ops, up.nodes, q)
        case Made(made) => WriteOutcome(made, None)
        case NoParent => WriteOutcome(up.nodes, Some(q))
        case _ => if IsDir(ops, up.nodes, q) then up else WriteOutcome(up.nodes, Some(q)))
    case _ => if IsDir(ops, nodes, q) then WriteOutcome(nodes, None) else WriteOutcome(nodes, Some(q))
  }

  /**
   * Where `mkdir` reports a failure: at `q` or at an ancestor that is not a
   * directory, and at an ancestor only when the lookup under `q` ran into a
   * missing component. When it ran into a non-directory (ENOTDIR), the
   * failure is reported at `q` itself.
   */
  lemma {:induction false} MakeDirsFailsOnlyAtBlocker(ops: PathOps, nodes: Nodes, q: Path)
    ensures var r := MakeDirs(ops, nodes, q);
      r.failedAt.Some? ==> r.failedAt.value <= q && !IsDir(ops, nodes, r.failedAt.value)
    ensures var r := MakeDirs(ops, nodes, q);
      r.failedAt.Some? && r.failedAt.value != q ==> q != [] && DirLookup(ops, nodes, Parent(q)).Missing?
    ensures q != [] && DirLookup(ops, nodes, Parent(q)).NotDir? && !IsDir(ops, nodes, q) ==>
      MakeDirs(ops, nodes, q) == WriteOutcome(nodes, Some(q))
    decreases |q|
  {
    if Mkdir(ops, nodes, q).NoParent? {
      MakeDirsFailsOnlyAtBlocker(ops, nodes, Parent(q));
      assert Parent(q) <= q;
    }
  }

  /** Below a non-directory, every lookup runs into that non-directory. */
  lemma {:induction false} LookupBelowNotDir(ops: PathOps, nodes: Nodes, f: Path, p: Path)
    requires f <= p && DirLookup(ops, nodes, f).NotDir?
    requires forall g :: f < g && g <= p ==> !IsDir(ops, nodes, g)
    ensures DirLookup(ops, nodes, p).NotDir?
    decreases |p|
  {
    if p != f {
      ParentOfLonger(f, p);
      LookupBelowNotDir(ops, nodes, f, Parent(p));
    }
  }

  /** A path strictly longer than a prefix of it keeps that prefix in its parent. */
  lemma ParentOfLonger(a: Path, q: Path)
    requires a <= q && a != q
    ensures a <= Parent(q) && Parent(q) <= q
  {
    assert q == Parent(q) + [q[|q| - 1]];
    assert a == q[..|a|] && Parent(q) == q[..|Parent(q)|];
  }

  /**
   * Writing below an existing non-directory, such as a regular file, fails at
   * the directory being made, not at the file in the way: `os.mkdir` raises
   * ENOTDIR there, which is not the ENOENT that makes it recurse.
   */
  lemma {:induction false} MakeDirsBelowNotDir(ops: PathOps, nodes: Nodes, f: Path, q: Path)
    requires f < q && IsDir(ops, nodes, Parent(f)) && Exists(ops, nodes, f) && !IsDir(ops, nodes, f)
    requires forall g :: f < g && g <= q ==> !IsDir(ops, nodes, g)
    ensures MakeDirs(ops, nodes, q) == WriteOutcome(nodes, Some(q))
  {
    ParentOfLonger(f, q);
    assert DirLookup(ops, nodes, f).NotDir?;
    LookupBelowNotDir(ops, nodes, f, Parent(q));
    MakeDirsFailsOnlyAtBlocker(ops, nodes, q);
  }

  /**
   * Below a dangling link, the chain of missing directories is walked back up
   * to the link, where `os.mkdir` raises EEXIST: the failure is reported at
   * the link.
   */
  lemma {:induction false} MakeDirsBelowDanglingLink(ops: PathOps, nodes: Nodes, l: Path, q: Path)
    requires l <= q && IsSymlink(ops, nodes, l) && !Exists(ops, nodes, l) && IsDir(ops, nodes, Parent(l))
    requires forall g :: l < g && g <= q ==> !Exists(ops, nodes, g)
    ensures DirLookup(ops, nodes, q).Missing?
    ensures MakeDirs(ops, nodes, q) == WriteOutcome(nodes, Some(l))
    decreases |q|
  {
    if q == l {
      assert Mkdir(ops, nodes, q) == AlreadyThere;
    } else {
      ParentOfLonger(l, q);
      MakeDirsBelowDanglingLink(ops, nodes, l, Parent(q));
      assert !IsDir(ops, nodes, q) && q != [];
      assert Mkdir(ops, nodes, q) == NoParent;
    }
  }

  /**
   * Below an existing directory `a`, a chain of missing directories down to
   * `q` is made, and afterwards `q` is a directory.
   */
  lemma {:induction false} MakeDirsSucceeds(ops: PathOps, nodes: Nodes, q: Path, a: Path)
    requires Coherent(ops, nodes)
    requires a <= q && IsDir(ops, nodes, a)
    requires forall b :: a < b && b <= q ==> Location(ops, b) !in nodes
    ensures a != q ==> DirLookup(ops, nodes, q).Missing?
    ensures MakeDirs(ops, nodes, q).failedAt.None?
    ensures IsDir(ops, MakeDirs(ops, nodes, q).nodes, q)
    decreases |q|
  {
    if q != a {
      assert Location(ops, q) !in nodes;
      assert ops.resolvePath(q) == Location(ops, q);
      assert !Exists(ops, nodes, q);
      var pq := Parent(q);
      ParentOfLonger(a, q);
      forall b | a < b && b <= pq
        ensures Location(ops, b) !in nodes
      {
        assert b <= q;
      }
      MakeDirsSucceeds(ops, nodes, pq, a);
      if pq == a {
        assert Mkdir(ops, nodes, q).Made?;
      } else {
        assert Mkdir(ops, nodes, q) == NoParent;
        MakeDirsAfterParent(ops, nodes, q);
      }
    }
  }

  /** Once the parent has been made, the second `os.mkdir(q)` leaves a directory at `q`. */
  lemma MakeDirsAfterParent(ops: PathOps, nodes: Nodes, q: Path)
    requires q != [] && Mkdir(ops, nodes, q) == NoParent
    requires ops.resolvePath(q) == Location(ops, q) && Location(ops, q) !in nodes
    requires MakeDirs(ops, nodes, Parent(q)).failedAt.None?
    requires IsDir(ops, MakeDirs(ops, nodes, Parent(q)).nodes, Parent(q))
    ensures MakeDirs(ops, nodes, q).failedAt.None?
    ensures IsDir(ops, MakeDirs(ops, nodes, q).nodes, q)
  {
    var up := MakeDirs(ops, nodes, Parent(q));
    if Location(ops, q) in up.nodes {
      assert up.nodes[Location(ops, q)] == Dir;
      assert IsDir(ops, up.nodes, q);
    }
  }

  /**
   * The filesystem effect of `WriteFileTool.execute` on a resolved path: make
   * the parent directories, then write the content through any link, unless
   * the path is a directory.
   */
  function WriteEffect(ops: PathOps, nodes: Nodes, p: Path, content: string): (r: WriteOutcome)
    ensures r.failedAt.None? ==> IsFile(ops, r.nodes, p) && r.nodes[ops.resolvePath(p)] == File(content)
    ensures forall k :: k in nodes && k != ops.resolvePath(p) ==> k in r.nodes && r.nodes[k] == nodes[k]
    ensures var made := MakeDirs(ops, nodes, Parent(p));
      r.failedAt.None? <==> made.failedAt.None? && !IsDir(ops, made.nodes, p)
    ensures r.failedAt.Some? ==> r.failedAt == MakeDirs(ops, nodes, Parent(p)).failedAt || r.failedAt == Some(p)
  {
    var made := MakeDirs(ops, nodes, Parent(p));
    if made.failedAt.Some? then made
    else if IsDir(ops, made.nodes, p) then WriteOutcome(made.nodes, Some(p))
    else WriteOutcome(made.nodes[ops.resolvePath(p) := File(content)], None)
  }

  /** `WriteFileTool.execute`. */
  method WriteFile(ops: PathOps, disk: Disk, config: ToolConfig, path: string, content: string) returns (r: string)
    modifies disk
    ensures var res := ResolvePath(ops, path, config.workspace, config.allowedDir, []);
      && (res.Err? ==> r == "Error: " + res.error && disk.nodes == old(disk.nodes))
      && (res.Ok? ==>
            var w := WriteEffect(ops, old(disk.nodes), res.value, content);
            disk.nodes == w.nodes
            && (w.failedAt.None? ==> r == "Successfully wrote " + NatToString(|content|) + " bytes to " + Show(res.value))
            && (w.failedAt.Some? ==> r == "Error writing file: " + ops.errorText(w.failedAt.value)))
  {
    var res := ResolvePath(ops, path, config.workspace, config.allowedDir, []);
    if res.Err? {
      r := "Error: " + res.error;
      return;
    }
    var p := res.value;
    var w := WriteEffect(ops, disk.nodes, p, content);
    disk.nodes := w.nodes;
    if w.failedAt.None? {
      r := "Successfully wrote " + NatToString(|content|) + " bytes to " + Show(p);
    } else {
      r := "Error writing file: " + ops.errorText(w.failedAt.value);
    }
  }

  /** Writing into an existing directory, at a path that is not a directory, succeeds. */
  lemma WriteIntoDirectory(ops: PathOps, nodes: Nodes, p: Path, content: string)
    requires IsDir(ops, nodes, Parent(p)) && !IsDir(ops, nodes, p)
    ensures WriteEffect(ops, nodes, p, content).failedAt.None?
    ensures WriteEffect(ops, nodes, p, content).nodes == nodes[ops.resolvePath(p) := File(content)]
  {
  }

  /**
   * Writing below a regular file (or a link to one) changes nothing, and the
   * error names the parent directory being made, where `os.mkdir` raises.
   */
  lemma WriteBelowNotDir(ops: PathOps, nodes: Nodes, f: Path, p: Path, content: string)
    requires f < Parent(p) && IsDir(ops, nodes, Parent(f)) && Exists(ops, nodes, f) && !IsDir(ops, nodes, f)
    requires forall g :: f < g && g <= Parent(p) ==> !IsDir(ops, nodes, g)
    ensures WriteEffect(ops, nodes, p, content) == WriteOutcome(nodes, Some(Parent(p)))
  {
    MakeDirsBelowNotDir(ops, nodes, f, Parent(p));
  }

  /**
   * What was written can be read back, through the read tool, whatever extra
   * directories it allows: exactly, when it holds no carriage return, and
   * with its line endings translated otherwise.
   */
  lemma WriteThenRead(ops: PathOps, nodes: Nodes, config: ToolConfig, extra: seq<string>, path: string, content: string)
    requires ResolvePath(ops, path, config.workspace, config.allowedDir, []).Ok?
    requires WriteEffect(ops, nodes, ResolvePath(ops, path, config.workspace, config.allowedDir, []).value, content).failedAt.None?
    ensures var p := ResolvePath(ops, path, config.workspace, config.allowedDir, []).value;
      ReadFile(ops, WriteEffect(ops, nodes, p, content).nodes, config, extra, path) == UniversalNewlines(content)
    ensures var p := ResolvePath(ops, path, config.workspace, config.allowedDir, []).value;
      '\r' !in content ==> ReadFile(ops, WriteEffect(ops, nodes, p, content).nodes, config, extra, path) == content
  {
    ExtraDirsOnlyWiden(ops, path, config.workspace, config.allowedDir, [], extra);
    assert [] + extra == extra;
    UniversalNewlinesFixedIff(content);
  }

  // ---------------------------------------------------------------------------
  // edit_file
  // ---------------------------------------------------------------------------

  function AmbiguousMessage(count: nat): string {
    "Warning: old_text appears " + NatToString(count) + " times. Please provide more context to make it unique."
  }

  /** The content the edit tool reads, with universal newlines: present when the path resolves to a file. */
  function EditedContent(ops: PathOps, nodes: Nodes, config: ToolConfig, path: string): (r: Option<string>)
    ensures r.Some? <==> (ResolvePath(ops, path, config.workspace, config.allowedDir, []).Ok?
                          && IsFile(ops, nodes, ResolvePath(ops, path, config.workspace, config.allowedDir, []).value))
    ensures r.Some? ==>
      r.value == UniversalNewlines(nodes[ops.resolvePath(ResolvePath(ops, path, config.workspace, config.allowedDir, []).value)].content)
  {
    match ResolvePath(ops, path, config.workspace, config.allowedDir, [])
    case Err(_) => None
    case Ok(p) => if IsFile(ops, nodes, p) then Some(UniversalNewlines(Followed(ops, nodes, p).value.content)) else None
  }

  /** The edit goes through: the path is a file in which the old text occurs exactly once. */
  predicate EditSucceeds(ops: PathOps, nodes: Nodes, config: ToolConfig, path: string, oldText: string) {
    EditedContent(ops, nodes, config, path).Some? && Count(EditedContent(ops, nodes, config, path).value, oldText) == 1
  }

  /**
   * `EditFileTool.execute` as a function of the filesystem. `notFound` is the
   * similarity-based message built when `oldText` does not occur. The file is
   * read with universal newlines and changes only when the old text occurs
   * exactly once in what was read; then the first occurrence is replaced and
   * the result written back, so every line ending becomes "\n". Nothing else
   * on the disk changes.
   */
  function EditEffect(ops: PathOps, nodes: Nodes, config: ToolConfig, path: string, oldText: string, newText: string,
                      notFound: (string, string, string) -> string): (r: Effect)
    ensures !EditSucceeds(ops, nodes, config, path, oldText) ==> r.nodes == nodes
    ensures EditSucceeds(ops, nodes, config, path, oldText) ==>
      var p := ResolvePath(ops, path, config.workspace, config.allowedDir, []).value;
      var content := EditedContent(ops, nodes, config, path).value;
      r == Effect("Successfully edited " + Show(p),
                  nodes[ops.resolvePath(p) := File(ReplaceFirst(content, oldText, newText))])
  {
    match ResolvePath(ops, path, config.workspace, config.allowedDir, [])
    case Err(e) => Effect("Error: " + e, nodes)
    case Ok(p) =>
      if !Exists(ops, nodes, p) then Effect("Error: File not found: " + path, nodes)
      else if !IsFile(ops, nodes, p) then Effect("Error editing file: " + ops.errorText(p), nodes)
      else
        var content := UniversalNewlines(Followed(ops, nodes, p).value.content);
        CountPositiveIff(content, oldText);
        if !Contains(content, oldText) then Effect(notFound(oldText, content, path), nodes)
        else if Count(content, oldText) > 1 then Effect(AmbiguousMessage(Count(content, oldText)), nodes)
        else Effect("Successfully edited " + Show(p), nodes[ops.resolvePath(p) := File(ReplaceFirst(content, oldText, newText))])
  }

  /** Text that does not occur leaves the file alone and gives the not-found message. */
  lemma EditMissingText(ops: PathOps, nodes: Nodes, config: ToolConfig, path: string, oldText: string, newText: string,
                        notFound: (string, string, string) -> string)
    requires EditedContent(ops, nodes, config, path).Some?
    requires !Contains(EditedContent(ops, nodes, config, path).value, oldText)
    ensures EditEffect(ops, nodes, config, path, oldText, newText, notFound)
         == Effect(notFound(oldText, EditedContent(ops, nodes, config, path).value, path), nodes)
  {
  }

  /** Text that occurs more than once leaves the file alone and says how often it occurs. */
  lemma EditAmbiguousText(ops: PathOps, nodes: Nodes, config: ToolConfig, path: string, oldText: string, newText: string,
                          notFound: (string, string, string) -> string)
    requires EditedContent(ops, nodes, config, path).Some?
    requires Count(EditedContent(ops, nodes, config, path).value, oldText) > 1
    ensures EditEffect(ops, nodes, config, path, oldText, newText, notFound)
         == Effect(AmbiguousMessage(Count(EditedContent(ops, nodes, config, path).value, oldText)), nodes)
  {
    CountPositiveIff(EditedContent(ops, nodes, config, path).value, oldText);
  }

  /**
   * A successful edit splices: the new content is the text before the first
   * occurrence, the replacement, and the text after the occurrence.
   */
  lemma EditSplices(ops: PathOps, nodes: Nodes, config: ToolConfig, path: string, oldText: string, newText: string)
    requires EditSucceeds(ops, nodes, config, path, oldText)
    ensures var content := EditedContent(ops, nodes, config, path).value;
      exists i :: OccursAt(content, oldText, i) && (forall j :: 0 <= j < i ==> !OccursAt(content, oldText, j))
               && ReplaceFirst(content, oldText, newText) == content[..i] + newText + content[i + |oldText|..]
  {
    var content := EditedContent(ops, nodes, config, path).value;
    CountPositiveIff(content, oldText);
    ContainsIff(content, oldText);
    FindFirstLeftmost(content, oldText);
    var i := FindFirst(content, oldText).value;
    assert OccursAt(content, oldText, i);
  }

  /**
   * After a successful edit, reading the file gives the edited content; with
   * a replacement free of carriage returns, exactly the spliced text.
   */
  lemma EditThenRead(ops: PathOps, nodes: Nodes, config: ToolConfig, extra: seq<string>, path: string, oldText: string,
                     newText: string, notFound: (string, string, string) -> string)
    requires EditSucceeds(ops, nodes, config, path, oldText)
    ensures ReadFile(ops, EditEffect(ops, nodes, config, path, oldText, newText, notFound).nodes, config, extra, path)
         == UniversalNewlines(ReplaceFirst(EditedContent(ops, nodes, config, path).value, oldText, newText))
    ensures '\r' !in newText ==>
      ReadFile(ops, EditEffect(ops, nodes, config, path, oldText, newText, notFound).nodes, config, extra, path)
      == ReplaceFirst(EditedContent(ops, nodes, config, path).value, oldText, newText)
  {
    ExtraDirsOnlyWiden(ops, path, config.workspace, config.allowedDir, [], extra);
    assert [] + extra == extra;
    if '\r' !in newText {
      EditWritesNewlines(ops, nodes, config, path, oldText, newText);
      UniversalNewlinesFixedIff(ReplaceFirst(EditedContent(ops, nodes, config, path).value, oldText, newText));
    }
  }

  /**
   * A successful edit writes back text-mode content: unless the replacement
   * brings one in, the file no longer holds a carriage return, whatever line
   * endings it had before.
   */
  lemma EditWritesNewlines(ops: PathOps, nodes: Nodes, config: ToolConfig, path: string, oldText: string, newText: string)
    requires EditSucceeds(ops, nodes, config, path, oldText)
    requires '\r' !in newText
    ensures '\r' !in ReplaceFirst(EditedContent(ops, nodes, config, path).value, oldText, newText)
  {
    var content := EditedContent(ops, nodes, config, path).value;
    var raw := nodes[ops.resolvePath(ResolvePath(ops, path, config.workspace, config.allowedDir, []).value)].content;
    UniversalNewlinesNoCR(raw);
    assert '\r' !in content;
    EditSplices(ops, nodes, config, path, oldText, newText);
    var i :| OccursAt(content, oldText, i) && ReplaceFirst(content, oldText, newText) == content[..i] + newText + content[i + |oldText|..];
    SpliceAvoids(content, i, |oldText|, newText, '\r');
  }

  /** A splice of two texts that avoid a character avoids it too. */
  lemma SpliceAvoids(content: string, i: nat, n: nat, insert: string, c: char)
    requires i + n <= |content| && c !in content && c !in insert
    ensures c !in content[..i] + insert + content[i + n..]
  {
  }

  /** `EditFileTool.execute`. */
  method EditFile(ops: PathOps, disk: Disk, config: ToolConfig, path: string, oldText: string, newText: string,
                  notFound: (string, string, string) -> string) returns (r: string)
    modifies disk
    ensures Effect(r, disk.nodes) == EditEffect(ops, old(disk.nodes), config, path, oldText, newText, notFound)
  {
    var res := ResolvePath(ops, path, config.workspace, config.allowedDir, []);
    if res.Err? {
      return "Error: " + res.error;
    }
    var p := res.value;
    if !Exists(ops, disk.nodes, p) {
      return "Error: File not found: " + path;
    }
    if !IsFile(ops, disk.nodes, p) {
      return "Error editing file: " + ops.errorText(p);
    }
    var content := UniversalNewlines(Followed(ops, disk.nodes, p).value.content);
    if !Contains(content, oldText) {
      return notFound(oldText, content, path);
    }
    var count := Count(content, oldText);
    if count > 1 {
      return AmbiguousMessage(count);
    }
    disk.nodes := disk.nodes[ops.resolvePath(p) := File(ReplaceFirst(content, oldText, newText))];
    r := "Successfully edited " + Show(p);
  }

  // ---------------------------------------------------------------------------
  // list_dir
  // ---------------------------------------------------------------------------

  /** Python's `<` on strings: code-point order, a proper prefix first. */
  predicate Less(a: string, b: string)
    decreases |a|
  {
    |b| > 0 && (|a| == 0 || a[0] < b[0] || (a[0] == b[0] && Less(a[1..], b[1..])))
  }

  lemma {:induction false} LessIrreflexive(a: string)
    ensures !Less(a, a)
    decreases |a|
  {
    if |a| > 0 {
      LessIrreflexive(a[1..]);
    }
  }

  lemma {:induction false} LessTransitive(a: string, b: string, c: string)
    requires Less(a, b) && Less(b, c)
    ensures Less(a, c)
    decreases |a|
  {
    if |a| > 0 && a[0] == b[0] && b[0] == c[0] {
      LessTransitive(a[1..], b[1..], c[1..]);
    }
  }

  lemma {:induction false} LessTotal(a: string, b: string)
    requires a != b
    ensures Less(a, b) || Less(b, a)
    decreases |a|
  {
    if |a| > 0 && |b| > 0 && a[0] == b[0] {
      assert a == [a[0]] + a[1..] && b == [b[0]] + b[1..];
      LessTotal(a[1..], b[1..]);
    }
  }

  /** `s` lists exactly the names of `names`, each once, in strictly increasing order. */
  ghost predicate SortedOf(s: seq<string>, names: set<string>) {
    (forall i, j :: 0 <= i < j < |s| ==> Less(s[i], s[j]))
    && (forall x :: x in names <==> x in s)
    && |s| == |names|
  }

  /** A finite non-empty set of names has a least one. */
  lemma {:induction false} LeastExists(names: set<string>)
    requires names != {}
    ensures exists m :: m in names && forall y :: y in names && y != m ==> Less(m, y)
    decreases |names|
  {
    var x :| x in names;
    var rest := names - {x};
    if rest != {} {
      LeastExists(rest);
      var m :| m in rest && forall y :: y in rest && y != m ==> Less(m, y);
      LessTotal(x, m);
      if Less(x, m) {
        forall y | y in names && y != x
          ensures Less(x, y)
        {
          if y != m {
            LessTransitive(x, m, y);
          }
        }
      } else {
        assert forall y :: y in names && y != m ==> Less(m, y);
      }
    } else {
      assert names == {x};
    }
  }

  /** Two least names of the same set are the same name. */
  lemma LeastUnique(a: string, b: string, names: set<string>)
    requires a in names && b in names
    requires forall y :: y in names && y != a ==> Less(a, y)
    requires forall y :: y in names && y != b ==> Less(b, y)
    ensures a == b
  {
    if a != b {
      LessTransitive(a, b, a);
      LessIrreflexive(a);
      assert false;
    }
  }

  /** A sorted listing of a non-empty set starts with its least name, followed by a sorted listing of the rest. */
  lemma SortedOfHead(s: seq<string>, names: set<string>)
    requires SortedOf(s, names) && names != {}
    ensures s != [] && s[0] in names
    ensures forall y :: y in names && y != s[0] ==> Less(s[0], y)
    ensures SortedOf(s[1..], names - {s[0]})
  {
    var x :| x in names;
    assert x in s;
    forall y | y in names && y != s[0]
      ensures Less(s[0], y)
    {
      var j :| 0 <= j < |s| && s[j] == y;
    }
    forall i | 0 < i < |s|
      ensures s[i] != s[0]
    {
      LessIrreflexive(s[0]);
    }
  }

  /** The sorted order of a set of names is unique. */
  lemma {:induction false} SortedOfUnique(s: seq<string>, t: seq<string>, names: set<string>)
    requires SortedOf(s, names) && SortedOf(t, names)
    ensures s == t
    decreases |s|
  {
    if names != {} {
      SortedOfHead(s, names);
      SortedOfHead(t, names);
      LeastUnique(s[0], t[0], names);
      SortedOfUnique(s[1..], t[1..], names - {s[0]});
      assert s == [s[0]] + s[1..] && t == [t[0]] + t[1..];
    }
  }

  /** `sorted(names)` */
  ghost function Sorted(names: set<string>): (r: seq<string>)
    ensures SortedOf(r, names)
    decreases |names|
  {
    if names == {} then []
    else
      LeastExists(names);
      var m :| m in names && forall y :: y in names && y != m ==> Less(m, y);
      var rest := Sorted(names - {m});
      assert forall x :: x in rest ==> x in names && x != m;
      [m] + rest
  }

  /** Sorting by repeatedly taking the least remaining name. */
  method SortNames(names: set<string>) returns (s: seq<string>)
    ensures s == Sorted(names)
  {
    s := [];
    var rest := names;
    while rest != {}
      invariant rest <= names
      invariant forall x :: x in names <==> x in s || x in rest
      invariant forall x :: x in s ==> x !in rest
      invariant |s| + |rest| == |names|
      invariant forall i, j :: 0 <= i < j < |s| ==> Less(s[i], s[j])
      invariant forall i, y :: 0 <= i < |s| && y in rest ==> Less(s[i], y)
      decreases |rest|
    {
      LeastExists(rest);
      var m :| m in rest && forall y :: y in rest && y != m ==> Less(m, y);
      forall i, y | 0 <= i < |s| && y in rest - {m}
        ensures Less((s + [m])[i], y)
      {
        assert (s + [m])[i] == s[i];
      }
      s := s + [m];
      rest := rest - {m};
    }
    SortedOfUnique(s, Sorted(names), names);
  }

  /** The names of the entries directly inside the directory at real location `dir`. */
  function ChildNames(nodes: Nodes, dir: Path): (r: set<string>)
    ensures forall n :: n in r <==> dir + [n] in nodes
  {
    var r := set k | k in nodes && |k| == |dir| + 1 && k[..|dir|] == dir :: k[|dir|];
    forall n ensures n in r <==> dir + [n] in nodes {
      if dir + [n] in nodes {
        assert (dir + [n])[..|dir|] == dir && (dir + [n])[|dir|] == n;
      }
      if n in r {
        var k :| k in nodes && |k| == |dir| + 1 && k[..|dir|] == dir && k[|dir|] == n;
        assert k == dir + [n];
      }
    }
    r
  }

  const FolderMark := "\U{1F4C1} "
  const FileMark := "\U{1F4C4} "

  /** One listing line: a folder or file mark (following links), then the name. */
  function EntryLine(ops: PathOps, nodes: Nodes, dir: Path, name: string): (r: string)
    ensures r == FolderMark + name || r == FileMark + name
    ensures IsDir(ops, nodes, dir + [name]) <==> r == FolderMark + name
  {
    assert (FolderMark + name)[0] != (FileMark + name)[0];
    if IsDir(ops, nodes, dir + [name]) then FolderMark + name else FileMark + name
  }

  /** `ListDirTool.execute` as a function of the filesystem. */
  ghost function ListResult(ops: PathOps, nodes: Nodes, config: ToolConfig, path: string): string
  {
    match ResolvePath(ops, path, config.workspace, config.allowedDir, [])
    case Err(e) => "Error: " + e
    case Ok(p) =>
      if !Exists(ops, nodes, p) then "Error: Directory not found: " + path
      else if !IsDir(ops, nodes, p) then "Error: Not a directory: " + path
      else Listing(ops, nodes, p, path, Sorted(ChildNames(nodes, ops.resolvePath(p))))
  }

  /** The listing text for the names of directory `dir`, in the order given. */
  function Listing(ops: PathOps, nodes: Nodes, dir: Path, path: string, names: seq<string>): string {
    if names == [] then "Directory " + path + " is empty"
    else Join(seq(|names|, i requires 0 <= i < |names| => EntryLine(ops, nodes, dir, names[i])), "\n")
  }

  /** An existing directory lists as empty exactly when nothing is inside it. */
  lemma ListEmptyIff(ops: PathOps, nodes: Nodes, config: ToolConfig, path: string)
    requires ResolvePath(ops, path, config.workspace, config.allowedDir, []).Ok?
    requires IsDir(ops, nodes, ResolvePath(ops, path, config.workspace, config.allowedDir, []).value)
    ensures var p := ResolvePath(ops, path, config.workspace, config.allowedDir, []).value;
      ListResult(ops, nodes, config, path) == "Directory " + path + " is empty"
      <==> ChildNames(nodes, ops.resolvePath(p)) == {}
  {
    var p := ResolvePath(ops, path, config.workspace, config.allowedDir, []).value;
    var names := ChildNames(nodes, ops.resolvePath(p));
    var sorted := Sorted(names);
    if names != {} {
      var n :| n in names;
      assert n in sorted;
      var lines := seq(|sorted|, i requires 0 <= i < |sorted| => EntryLine(ops, nodes, p, sorted[i]));
      JoinStartsWithMark(lines);
      assert ("Directory " + path + " is empty")[0] == 'D';
    }
  }

  /** A joined listing starts with a mark, so it is never the "empty" text. */
  lemma JoinStartsWithMark(lines: seq<string>)
    requires |lines| > 0
    requires forall i :: 0 <= i < |lines| ==> FolderMark <= lines[i] || FileMark <= lines[i]
    ensures FolderMark <= Join(lines, "\n") || FileMark <= Join(lines, "\n")
  {
    if |lines| > 1 {
      assert Join(lines, "\n") == lines[0] + "\n" + Join(lines[1..], "\n");
    }
  }

  /** The loop of `ListDirTool.execute`: one marked line per name, in order. */
  method EntryLines(ops: PathOps, nodes: Nodes, dir: Path, names: seq<string>) returns (items: seq<string>)
    ensures items == seq(|names|, i requires 0 <= i < |names| => EntryLine(ops, nodes, dir, names[i]))
  {
    items := [];
    var k := 0;
    while k < |names|
      invariant 0 <= k <= |names|
      invariant items == seq(k, i requires 0 <= i < k => EntryLine(ops, nodes, dir, names[i]))
    {
      var prefix := if IsDir(ops, nodes, dir + [names[k]]) then FolderMark else FileMark;
      items := items + [prefix + names[k]];
      k := k + 1;
    }
  }

  /** `ListDirTool.execute`. */
  method ListDir(ops: PathOps, disk: Disk, config: ToolConfig, path: string) returns (r: string)
    ensures r == ListResult(ops, disk.nodes, config, path)
  {
    var res := ResolvePath(ops, path, config.workspace, config.allowedDir, []);
    if res.Err? {
      return "Error: " + res.error;
    }
    var p := res.value;
    if !Exists(ops, disk.nodes, p) {
      return "Error: Directory not found: " + path;
    }
    if !IsDir(ops, disk.nodes, p) {
      return "Error: Not a directory: " + path;
    }
    var nodes := disk.nodes;
    var names := SortNames(ChildNames(nodes, ops.resolvePath(p)));
    var items := EntryLines(ops, nodes, p, names);
    if items == [] {
      r := "Directory " + path + " is empty";
    } else {
      r := Join(items, "\n");
    }
    assert r == Listing(ops, nodes, p, path, names);
  }

  // ---------------------------------------------------------------------------
  // delete_file
  // ---------------------------------------------------------------------------

  /** The lexical absolute path `DeleteFileTool` works on; links in it are not resolved. */
  function DeletePath(ops: PathOps, config: ToolConfig, path: string): Path {
    ops.absPath(Anchored(ops, path, config.workspace))
  }

  /**
   * `DeleteFileTool.execute`'s directory guards for the lexical path `p`: with
   * an allowed directory, `p` lies inside it by its configured (alias) path or
   * its real path, and `p`'s parent, resolved, lies inside the real path.
   */
  predicate DeleteAllowed(ops: PathOps, config: ToolConfig, p: Path) {
    config.allowedDir.None? ||
    var alias := ops.absPath(ops.expandUser(config.allowedDir.value));
    (IsRelativeTo(p, alias) || IsRelativeTo(p, ops.resolvePath(alias)))
    && IsRelativeTo(ops.resolvePath(Parent(p)), ops.resolvePath(alias))
  }

  /**
   * `DeleteFileTool.execute`'s checks before `unlink`: the directory guards,
   * then a missing path that is not a dangling link and a directory that is
   * not a link are refused. A path that passes all of them is the target.
   */
  function DeleteTarget(ops: PathOps, nodes: Nodes, config: ToolConfig, path: string): (r: Result<Path, string>)
    ensures var p := DeletePath(ops, config, path);
      r.Ok? <==> DeleteAllowed(ops, config, p)
                 && (Exists(ops, nodes, p) || IsSymlink(ops, nodes, p))
                 && (!IsDir(ops, nodes, p) || IsSymlink(ops, nodes, p))
    ensures r.Ok? ==> r.value == DeletePath(ops, config, path)
    ensures !DeleteAllowed(ops, config, DeletePath(ops, config, path)) ==>
      r == Err("Error: " + OutsideMessage(path, config.allowedDir.value))
    ensures var p := DeletePath(ops, config, path);
      DeleteAllowed(ops, config, p) && !Exists(ops, nodes, p) && !IsSymlink(ops, nodes, p) ==>
        r == Err("Error: File not found: " + path)
    ensures var p := DeletePath(ops, config, path);
      DeleteAllowed(ops, config, p) && IsDir(ops, nodes, p) && !IsSymlink(ops, nodes, p) ==>
        r == Err("Error: Not a file: " + path)
  {
    var p := DeletePath(ops, config, path);
    if config.allowedDir.Some? then
      var alias := ops.absPath(ops.expandUser(config.allowedDir.value));
      var realDir := ops.resolvePath(alias);
      if !(IsRelativeTo(p, alias) || IsRelativeTo(p, realDir)) then
        Err("Error: " + OutsideMessage(path, config.allowedDir.value))
      else if !IsRelativeTo(ops.resolvePath(Parent(p)), realDir) then
        Err("Error: " + OutsideMessage(path, config.allowedDir.value))
      else EntryChecks(ops, nodes, p, path)
    else EntryChecks(ops, nodes, p, path)
  }

  function EntryChecks(ops: PathOps, nodes: Nodes, p: Path, path: string): (r: Result<Path, string>)
    ensures r.Ok? ==> r.value == p
    ensures r.Ok? <==> (Exists(ops, nodes, p) || IsSymlink(ops, nodes, p)) && (!IsDir(ops, nodes, p) || IsSymlink(ops, nodes, p))
  {
    if !Exists(ops, nodes, p) && !IsSymlink(ops, nodes, p) then Err("Error: File not found: " + path)
    else if IsDir(ops, nodes, p) && !IsSymlink(ops, nodes, p) then Err("Error: Not a file: " + path)
    else Ok(p)
  }

  /** `unlink` can remove the entry: it is there and is not a directory. */
  predicate CanUnlink(ops: PathOps, nodes: Nodes, p: Path) {
    p != [] && Location(ops, p) in nodes && !nodes[Location(ops, p)].Dir?
  }

  /** `DeleteFileTool.execute` as a function of the filesystem: only the entry itself is removed, never a link's target. */
  function DeleteEffect(ops: PathOps, nodes: Nodes, config: ToolConfig, path: string): (r: Effect)
    ensures r.nodes == nodes || exists t :: t in nodes && r.nodes == nodes - {t}
  {
    match DeleteTarget(ops, nodes, config, path)
    case Err(e) => Effect(e, nodes)
    case Ok(p) =>
      if CanUnlink(ops, nodes, p) then Effect("Successfully deleted " + path, nodes - {Location(ops, p)})
      else Effect("Error deleting file: " + ops.errorText(p), nodes)
  }

  /**
   * On a coherent filesystem a delete removes an entry exactly when the
   * directory guards pass and the path is a link (dangling or not) or a
   * regular file; it then removes that entry alone and reports success.
   */
  lemma DeleteRemovesIff(ops: PathOps, nodes: Nodes, config: ToolConfig, path: string)
    requires Coherent(ops, nodes)
    ensures var p := DeletePath(ops, config, path);
      DeleteEffect(ops, nodes, config, path).nodes != nodes
      <==> p != [] && DeleteAllowed(ops, config, p) && (IsSymlink(ops, nodes, p) || IsFile(ops, nodes, p))
    ensures var p := DeletePath(ops, config, path);
      DeleteEffect(ops, nodes, config, path).nodes != nodes ==>
        DeleteEffect(ops, nodes, config, path) == Effect("Successfully deleted " + path, nodes - {Location(ops, p)})
  {
    var p := DeletePath(ops, config, path);
    if p != [] && !IsSymlink(ops, nodes, p) && IsFile(ops, nodes, p) {
      assert ops.resolvePath(p) == Location(ops, p);
    }
    if p != [] && DeleteAllowed(ops, config, p) && (IsSymlink(ops, nodes, p) || IsFile(ops, nodes, p)) {
      assert Location(ops, p) in nodes;
      assert CanUnlink(ops, nodes, p);
      assert Location(ops, p) !in nodes - {Location(ops, p)};
    }
  }

  /** Whatever is deleted lies inside the allowed directory, and so does its real parent. */
  lemma DeleteStaysInside(ops: PathOps, nodes: Nodes, config: ToolConfig, path: string)
    requires config.allowedDir.Some?
    requires DeleteEffect(ops, nodes, config, path).nodes != nodes
    ensures var p := DeletePath(ops, config, path);
      var alias := ops.absPath(ops.expandUser(config.allowedDir.value));
      (IsRelativeTo(p, alias) || IsRelativeTo(p, ops.resolvePath(alias)))
      && IsRelativeTo(ops.resolvePath(Parent(p)), ops.resolvePath(alias))
      && DeleteEffect(ops, nodes, config, path).nodes == nodes - {Location(ops, p)}
  {
  }

  /** A path whose parent is a link leading out of the allowed directory deletes nothing. */
  lemma SymlinkParentEscapeBlocked(ops: PathOps, nodes: Nodes, config: ToolConfig, path: string)
    requires config.allowedDir.Some?
    requires !IsRelativeTo(ops.resolvePath(Parent(DeletePath(ops, config, path))),
                           ops.resolvePath(ops.absPath(ops.expandUser(config.allowedDir.value))))
    ensures DeleteEffect(ops, nodes, config, path)
         == Effect("Error: " + OutsideMessage(path, config.allowedDir.value), nodes)
  {
  }

  /** A real directory (not a link to one) is refused and nothing is deleted. */
  lemma DirectoryRefused(ops: PathOps, nodes: Nodes, config: ToolConfig, path: string)
    requires IsDir(ops, nodes, DeletePath(ops, config, path)) && !IsSymlink(ops, nodes, DeletePath(ops, config, path))
    ensures DeleteEffect(ops, nodes, config, path).nodes == nodes
  {
  }

  /** A dangling link inside the allowed area is removed, though `exists()` is false for it. */
  lemma DanglingLinkDeleted(ops: PathOps, nodes: Nodes, config: ToolConfig, path: string)
    requires var p := DeletePath(ops, config, path);
      DeleteAllowed(ops, config, p) && IsSymlink(ops, nodes, p) && !Exists(ops, nodes, p)
    ensures var p := DeletePath(ops, config, path);
      DeleteEffect(ops, nodes, config, path) == Effect("Successfully deleted " + path, nodes - {Location(ops, p)})
  {
  }

  /** `DeleteFileTool.execute`. */
  method DeleteFile(ops: PathOps, disk: Disk, config: ToolConfig, path: string) returns (r: string)
    modifies disk
    ensures Effect(r, disk.nodes) == DeleteEffect(ops, old(disk.nodes), config, path)
  {
    var target := DeleteTarget(ops, disk.nodes, config, path);
    if target.Err? {
      return target.error;
    }
    var p := target.value;
    if !CanUnlink(ops, disk.nodes, p) {
      return "Error deleting file: " + ops.errorText(p);
    }
    disk.nodes := disk.nodes - {Location(ops, p)};
    r := "Successfully deleted " + path;
  }
}
