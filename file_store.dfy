/**
 * The sandboxed file store of `agent/tools.py`: every path handed to a tool is
 * resolved against one project root and refused when it escapes it; a missing
 * file reads as "", an undecodable one as a fixed sentinel; writes overwrite
 * and create parent folders; listing gives the root-relative names of all
 * regular files, sorted, one per line.
 *
 * The file system is a `Tree`: the contents of the regular files and the set of
 * directories, both keyed by normalised absolute path. The spec functions below
 * (`WithRoot`, `SafeJoin`, `Write`, `Read`, `ListingOf`) say what each tool
 * does to a tree; the class `Workspace` holds the tree and performs the tools
 * step by step, each method proved to agree with its spec function.
 */
module FileStore {
  import opened Paths
  import StringOrder

  datatype Content = Text(text: string) | Undecodable

  /**
   * `ValueError("Invalid path…")`, `IsADirectoryError`, and the two errors
   * `mkdir(parents=True, exist_ok=True)` raises when a regular file is in the
   * way: `NotADirectoryError` for a file above the folder, `FileExistsError`
   * for a file at the folder itself.
   */
  datatype FsError = InvalidPath | IsADirectory | NotADirectory | FileExists

  datatype Result<T> = Ok(value: T) | Err(error: FsError)

  datatype Tree = Tree(files: map<Path, Content>, dirs: set<Path>)

  /** A tool's effect on the tree, and what it returned or raised. */
  datatype Outcome = Outcome(tree: Tree, result: Result<string>)

  const BinarySentinel: string := "[[binary file]]"

  /** The paths `mkdir(parents=True)` ensures for directory `p`: `p` and all its ancestors below `/`. */
  function Prefixes(p: Path): set<Path> {
    set i | 0 < i <= |p| :: p[..i]
  }

  /** Regular files never contain anything, every ancestor of an entry is a directory, and names are normalised. */
  ghost predicate WellFormed(t: Tree) {
    && (forall p :: p in t.files ==> p !in t.dirs && |p| > 0 && AllNames(p))
    && (forall p, i :: p in t.files && 0 < i < |p| ==> p[..i] in t.dirs)
    && (forall d, i :: d in t.dirs && 0 < i < |d| ==> d[..i] in t.dirs)
  }

  /** No regular file sits where the root or one of its ancestors must be. */
  ghost predicate RootClear(t: Tree, root: Path) {
    forall i :: 0 < i <= |root| ==> root[..i] !in t.files
  }

  /**
   * Nothing outside the root has changed between `a` and `b`, except that the
   * root's own ancestors may have been created as directories.
   */
  ghost predicate Confined(a: Tree, b: Tree, root: Path) {
    && (forall q :: !Within(root, q) ==> (q in a.files <==> q in b.files))
    && (forall q :: q in a.files && !Within(root, q) ==> b.files[q] == a.files[q])
    && (forall d :: d in b.dirs ==> d in a.dirs || Within(root, d) || d in Prefixes(root))
    && (forall d :: d in a.dirs ==> d in b.dirs)
  }

  /** `_ensure_root` when it succeeds: `PROJECT_ROOT.mkdir(parents=True, exist_ok=True)` creates the root's folders. */
  function WithRoot(t: Tree, root: Path): (r: Tree)
    ensures r.files == t.files && t.dirs <= r.dirs
    ensures |root| > 0 ==> root in r.dirs
  {
    assert root == root[..|root|];
    Tree(t.files, t.dirs + Prefixes(root))
  }

  /** `_safe_join` without its call to `_ensure_root`. */
  function SafeJoin(root: Path, path: string): (r: Result<Path>)
    ensures r.Ok? ==> r.value == Resolve(root, path) && Within(root, r.value)
    ensures r.Err? ==> r.error == InvalidPath && !Within(root, Resolve(root, path))
  {
    var p := Resolve(root, path);
    if Within(root, p) then Ok(p) else Err(InvalidPath)
  }

  /** Some ancestor of `dir`, or `dir` itself, is a regular file. */
  predicate BlockedByFile(t: Tree, dir: Path) {
    exists i :: 0 < i <= |dir| && dir[..i] in t.files
  }

  /** What `mkdir(parents=True, exist_ok=True)` raises for a folder a regular file is in the way of. */
  function MkdirError(t: Tree, dir: Path): (e: FsError)
    ensures e == FileExists <==> dir in t.files
    ensures e == NotADirectory <==> dir !in t.files
  {
    if dir in t.files then FileExists else NotADirectory
  }

  /** The tree after `_ensure_root()`: it raises and changes nothing when a regular file is in the root's way. */
  function Ensured(t: Tree, root: Path): (r: Tree)
    ensures r.files == t.files && t.dirs <= r.dirs
    ensures BlockedByFile(t, root) ==> r == t
    ensures !BlockedByFile(t, root) ==> Prefixes(root) <= r.dirs
  {
    if BlockedByFile(t, root) then t else WithRoot(t, root)
  }

  /**
   * Python's universal-newlines decoding, which `read_text` applies: a
   * `"\r\n"` pair and a lone `"\r"` each become `"\n"`. The result holds no
   * carriage return, text without one is left alone, and everything but the
   * line breaks is kept in order.
   */
  function UniversalNewlines(s: string): (r: string)
    ensures '\r' !in r
    ensures '\r' !in s ==> r == s
    ensures Unbroken(r) == Unbroken(s)
    decreases |s|
  {
    if s == [] then []
    else if s[0] == '\r' && |s| > 1 && s[1] == '\n' then
      var rest := UniversalNewlines(s[2..]);
      assert s[1..][1..] == s[2..];
      assert ("\n" + rest)[1..] == rest;
      "\n" + rest
    else if s[0] == '\r' then
      var rest := UniversalNewlines(s[1..]);
      assert ("\n" + rest)[1..] == rest;
      "\n" + rest
    else
      var rest := UniversalNewlines(s[1..]);
      assert ([s[0]] + rest)[1..] == rest;
      assert s == [s[0]] + s[1..];
      [s[0]] + rest
  }

  /** The characters of `s` other than `"\r"` and `"\n"`, in order. */
  function Unbroken(s: string): string
    decreases |s|
  {
    if s == [] then []
    else (if s[0] == '\r' || s[0] == '\n' then [] else [s[0]]) + Unbroken(s[1..])
  }

  /** `write_file(path, content)`. */
  function Write(t: Tree, root: Path, path: string, content: string): (r: Outcome)
    requires ValidRoot(root)
    ensures !RootClear(t, root) ==> r == Outcome(t, Err(MkdirError(t, root)))
    ensures r.result.Ok? ==> Within(root, Resolve(root, path)) && r.result.value == Render(Resolve(root, path))
    ensures r.result.Ok? ==> r.tree.files == t.files[Resolve(root, path) := Text(content)]
    ensures r.result.Err? ==> r.tree.files == t.files
  {
    if BlockedByFile(t, root) then Outcome(t, Err(MkdirError(t, root)))
    else
    var t1 := WithRoot(t, root);
    match SafeJoin(root, path)
    case Err(e) => Outcome(t1, Err(e))
    case Ok(p) =>
      var parent := p[..|p| - 1];
      if BlockedByFile(t1, parent) then Outcome(t1, Err(MkdirError(t1, parent)))
      else
        var t2 := Tree(t1.files, t1.dirs + Prefixes(parent));
        if p in t2.dirs then Outcome(t2, Err(IsADirectory))
        else Outcome(Tree(t2.files[p := Text(content)], t2.dirs), Ok(Render(p)))
  }

  /** `read_file(path)`. */
  function Read(t: Tree, root: Path, path: string): (r: Outcome)
    ensures r.tree.files == t.files
    ensures !RootClear(t, root) ==> r == Outcome(t, Err(MkdirError(t, root)))
    ensures r.result.Ok? ==> '\r' !in r.result.value
  {
    if BlockedByFile(t, root) then Outcome(t, Err(MkdirError(t, root)))
    else
    var t1 := WithRoot(t, root);
    match SafeJoin(root, path)
    case Err(e) => Outcome(t1, Err(e))
    case Ok(p) =>
      if p in t1.dirs then Outcome(t1, Err(IsADirectory))
      else if p !in t1.files then Outcome(t1, Ok(""))
      else match t1.files[p]
        case Text(s) => Outcome(t1, Ok(UniversalNewlines(s)))
        case Undecodable => Outcome(t1, Ok(BinarySentinel))
  }

  /** `str(fp.relative_to(PROJECT_ROOT))`. */
  function RelName(root: Path, p: Path): string
    requires |root| <= |p|
  {
    JoinWith(p[|root|..], "/")
  }

  /** The names `list_files` collects: the regular files strictly below the root. */
  ghost function ListedNames(files: map<Path, Content>, root: Path): set<string> {
    set p | p in files && Within(root, p) && |p| > |root| :: RelName(root, p)
  }

  /** What `list_files` returns: those names sorted and joined by newlines. */
  ghost function ListingOf(files: map<Path, Content>, root: Path): (r: string)
    ensures var names := StringOrder.Sort(StringOrder.SetToSeq(ListedNames(files, root)));
            && StringOrder.Sorted(names) && StringOrder.Elems(names) == ListedNames(files, root)
            && r == JoinWith(names, "\n")
  {
    var chosen := StringOrder.SetToSeq(ListedNames(files, root));
    var names := StringOrder.Sort(chosen);
    StringOrder.SortSorted(chosen);
    StringOrder.SortElems(chosen);
    JoinWith(names, "\n")
  }

  // ----- Properties of the tools -----

  /** `_ensure_root` is idempotent and touches no file. */
  lemma EnsureRootIdempotent(t: Tree, root: Path)
    ensures WithRoot(WithRoot(t, root), root) == WithRoot(t, root)
    ensures WithRoot(t, root).files == t.files
  {
  }

  /** With the root available, a path is refused exactly when its resolution leaves the root, and then only the root is created. */
  lemma {:induction false} EscapeRejected(t: Tree, root: Path, path: string, content: string)
    requires ValidRoot(root) && RootClear(t, root)
    ensures Write(t, root, path, content).result == Err(InvalidPath) <==> !Within(root, Resolve(root, path))
    ensures Read(t, root, path).result == Err(InvalidPath) <==> !Within(root, Resolve(root, path))
    ensures !Within(root, Resolve(root, path)) ==>
              Write(t, root, path, content).tree == WithRoot(t, root) && Read(t, root, path).tree == WithRoot(t, root)
  {
  }

  /** `../name` is refused unless `name` is the root's own last segment. */
  lemma ParentEscapeRejected(t: Tree, root: Path, name: string, content: string)
    requires ValidRoot(root) && RootClear(t, root) && IsName(name) && name != root[|root| - 1]
    ensures Write(t, root, "../" + name, content) == Outcome(WithRoot(t, root), Err(InvalidPath))
    ensures Read(t, root, "../" + name) == Outcome(WithRoot(t, root), Err(InvalidPath))
  {
    ResolveParentEscape(root, name);
    var p := root[..|root| - 1] + [name];
    assert p[|root| - 1] == name;
    assert !Within(root, p);
  }

  /** An absolute path outside the root is refused. */
  lemma AbsoluteOutsideRejected(t: Tree, root: Path, q: Path, content: string)
    requires ValidRoot(root) && RootClear(t, root) && AllNames(q) && !Within(root, q)
    ensures Write(t, root, "/" + JoinWith(q, "/"), content) == Outcome(WithRoot(t, root), Err(InvalidPath))
    ensures Read(t, root, "/" + JoinWith(q, "/")) == Outcome(WithRoot(t, root), Err(InvalidPath))
  {
    ResolveAbsolute(root, q);
  }

  /** A relative path made of plain names is accepted and names the file that many levels below the root. */
  lemma RelativeAccepted(root: Path, segs: seq<string>)
    requires AllNames(segs)
    ensures SafeJoin(root, JoinWith(segs, "/")) == Ok(root + segs)
  {
    ResolveRelative(root, segs);
    assert (root + segs)[..|root|] == root;
  }

  /** Reading back what was written gives the content written, with its line breaks read as `"\n"`. */
  lemma WriteThenRead(t: Tree, root: Path, path: string, content: string)
    requires ValidRoot(root)
    requires Write(t, root, path, content).result.Ok?
    ensures Read(Write(t, root, path, content).tree, root, path)
            == Outcome(Write(t, root, path, content).tree, Ok(UniversalNewlines(content)))
  {
    var w := Write(t, root, path, content).tree;
    var p := Resolve(root, path);
    assert Prefixes(root) <= w.dirs;
    assert WithRoot(w, root) == w;
    assert p !in w.dirs;
  }

  /** Content without a carriage return reads back exactly as written. */
  lemma WriteThenReadExact(t: Tree, root: Path, path: string, content: string)
    requires ValidRoot(root) && '\r' !in content
    requires Write(t, root, path, content).result.Ok?
    ensures Read(Write(t, root, path, content).tree, root, path).result == Ok(content)
  {
    WriteThenRead(t, root, path, content);
  }

  /** A Windows line ending written by the agent reads back as a plain `"\n"`. */
  lemma CrLfReadsAsLf()
    ensures UniversalNewlines("x\r\ny") == "x\ny"
  {
    assert "x\r\ny"[1..] == "\r\ny" && "\r\ny"[2..] == "y";
  }

  /**
   * With a regular file at the root or above it, `_ensure_root` raises inside
   * every tool: writing and reading fail with `mkdir`'s error and change nothing.
   */
  lemma BlockedRootFails(t: Tree, root: Path, path: string, content: string)
    requires ValidRoot(root) && !RootClear(t, root)
    ensures Write(t, root, path, content) == Outcome(t, Err(MkdirError(t, root)))
    ensures Read(t, root, path) == Outcome(t, Err(MkdirError(t, root)))
    ensures Ensured(t, root) == t
  {
  }

  /**
   * A successful write sets exactly the resolved file and returns its absolute
   * path; a failed one changes no file. Other files keep their content.
   */
  lemma WriteFrame(t: Tree, root: Path, path: string, content: string)
    requires ValidRoot(root)
    ensures var o := Write(t, root, path, content);
            && (o.result.Ok? ==> Within(root, Resolve(root, path))
                                 && o.result.value == Render(Resolve(root, path))
                                 && o.tree.files == t.files[Resolve(root, path) := Text(content)])
            && (o.result.Err? ==> o.tree.files == t.files)
            && t.dirs <= o.tree.dirs
  {
  }

  /** A write that succeeds leaves the parent folders of the file in place. */
  lemma WriteCreatesParents(t: Tree, root: Path, path: string, content: string)
    requires ValidRoot(root)
    requires Write(t, root, path, content).result.Ok?
    ensures var p := Resolve(root, path);
            forall i :: 0 < i < |p| ==> p[..i] in Write(t, root, path, content).tree.dirs
  {
    var p := Resolve(root, path);
    forall i | 0 < i < |p| ensures p[..i] in Prefixes(p[..|p| - 1]) {
      assert p[..i] == p[..|p| - 1][..i];
    }
  }

  /** No write changes anything outside the root. */
  lemma WriteConfined(t: Tree, root: Path, path: string, content: string)
    requires ValidRoot(root)
    ensures Confined(t, Write(t, root, path, content).tree, root)
  {
    var p := Resolve(root, path);
    if Within(root, p) {
      forall d | d in Prefixes(p[..|p| - 1]) && !Within(root, d) ensures d in Prefixes(root) {
        var i :| 0 < i <= |p| - 1 && d == p[..|p| - 1][..i];
        assert i < |root|;
        assert d == root[..i];
      }
    }
  }

  /** Confinement composes: two confined changes in a row are confined. */
  lemma ConfinedRefl(t: Tree, root: Path)
    ensures Confined(t, t, root)
  {
  }

  lemma ConfinedTransitive(a: Tree, b: Tree, c: Tree, root: Path)
    requires Confined(a, b, root) && Confined(b, c, root)
    ensures Confined(a, c, root)
  {
  }

  /** Ensuring the root changes nothing outside it and keeps the tree well formed. */
  lemma WithRootConfined(t: Tree, root: Path)
    requires ValidRoot(root) && WellFormed(t) && RootClear(t, root)
    ensures Confined(t, WithRoot(t, root), root)
    ensures WellFormed(WithRoot(t, root)) && RootClear(WithRoot(t, root), root)
  {
    WithRootPreserves(t, root);
  }

  /** In a well-formed tree, reading a name directly below the root never fails. */
  lemma ReadBelowRoot(t: Tree, root: Path, name: string)
    requires ValidRoot(root) && WellFormed(t) && RootClear(t, root)
    requires IsName(name) && root + [name] !in t.dirs
    ensures Read(t, root, name).result.Ok? && Read(t, root, name).tree == WithRoot(t, root)
    ensures root + [name] !in WithRoot(t, root).dirs
  {
    assert JoinWith([name], "/") == name;
    RelativeAccepted(root, [name]);
    assert root + [name] !in Prefixes(root);
  }

  /** In a well-formed tree, writing a name directly below the root succeeds and stores the content there. */
  lemma WriteBelowRoot(t: Tree, root: Path, name: string, content: string)
    requires ValidRoot(root) && WellFormed(t) && RootClear(t, root)
    requires IsName(name) && root + [name] !in t.dirs
    ensures Write(t, root, name, content).result.Ok?
    ensures Write(t, root, name, content).tree.files == t.files[root + [name] := Text(content)]
  {
    assert JoinWith([name], "/") == name;
    RelativeAccepted(root, [name]);
    var p := root + [name];
    assert p[..|p| - 1] == root;
    assert p !in Prefixes(root);
    assert !BlockedByFile(WithRoot(t, root), root);
  }

  /**
   * Below a fresh name under the root, the read a step starts with succeeds,
   * and the write that follows it leaves `content` at that name.
   */
  lemma PageWritten(t: Tree, root: Path, name: string, content: string)
    requires ValidRoot(root) && WellFormed(t) && RootClear(t, root)
    requires IsName(name) && root + [name] !in t.dirs
    ensures Read(t, root, name).result.Ok?
    ensures var w := Write(WithRoot(t, root), root, name, content).tree;
            root + [name] in w.files && w.files[root + [name]] == Text(content)
  {
    ReadBelowRoot(t, root, name);
    WithRootPreserves(t, root);
    WriteBelowRoot(WithRoot(t, root), root, name, content);
  }

  /** Reading changes no file and, outside the root, nothing at all. */
  lemma ReadConfined(t: Tree, root: Path, path: string)
    ensures Read(t, root, path).tree == Ensured(t, root)
    ensures Confined(t, Read(t, root, path).tree, root)
  {
  }

  /** Reading a contained path that is neither file nor folder gives "" and changes no file. */
  lemma ReadMissing(t: Tree, root: Path, path: string)
    requires RootClear(t, root) && Within(root, Resolve(root, path)) && |Resolve(root, path)| > |root|
    requires Resolve(root, path) !in t.files && Resolve(root, path) !in t.dirs
    ensures Read(t, root, path) == Outcome(WithRoot(t, root), Ok(""))
  {
  }

  /** An undecodable file reads as the sentinel rather than failing. */
  lemma ReadUndecodable(t: Tree, root: Path, path: string)
    requires WellFormed(t) && RootClear(t, root)
    requires Within(root, Resolve(root, path))
    requires Resolve(root, path) in t.files && t.files[Resolve(root, path)] == Undecodable
    ensures Read(t, root, path) == Outcome(WithRoot(t, root), Ok(BinarySentinel))
  {
  }

  /** Creating the folders of an unblocked path keeps the tree well formed. */
  lemma PrefixesPreserve(t: Tree, q: Path)
    requires WellFormed(t) && !BlockedByFile(t, q)
    ensures WellFormed(Tree(t.files, t.dirs + Prefixes(q)))
  {
    var t1 := Tree(t.files, t.dirs + Prefixes(q));
    forall d, i | d in t1.dirs && 0 < i < |d| ensures d[..i] in t1.dirs {
      if d in Prefixes(q) {
        var j :| 0 < j <= |q| && d == q[..j];
        assert d[..i] == q[..i];
      }
    }
  }

  lemma WithRootPreserves(t: Tree, root: Path)
    requires ValidRoot(root) && WellFormed(t) && RootClear(t, root)
    ensures WellFormed(WithRoot(t, root)) && RootClear(WithRoot(t, root), root)
  {
    PrefixesPreserve(t, root);
  }

  /** Writing keeps the tree well formed and the root's place free of files. */
  lemma WritePreserves(t: Tree, root: Path, path: string, content: string)
    requires ValidRoot(root) && WellFormed(t) && RootClear(t, root)
    ensures WellFormed(Write(t, root, path, content).tree)
    ensures RootClear(Write(t, root, path, content).tree, root)
  {
    var w := Write(t, root, path, content).tree;
    WriteSteps(t, root, path, content);
    WithRootPreserves(t, root);
    var t1 := WithRoot(t, root);
    if w != t1 {
      var p := Resolve(root, path);
      var parent := p[..|p| - 1];
      var t2 := Tree(t1.files, t1.dirs + Prefixes(parent));
      PrefixesPreserve(t1, parent);
      if w != t2 {
        forall i | 0 < i < |p| ensures p[..i] in t2.dirs {
          assert p[..i] == parent[..i];
        }
        StorePreserves(t2, root, p, content);
      }
    }
  }

  /** The tree `write_file` leaves under a clear root: the root created, then the parent's folders, then the file. */
  lemma WriteSteps(t: Tree, root: Path, path: string, content: string)
    requires ValidRoot(root) && RootClear(t, root)
    ensures var w := Write(t, root, path, content).tree;
            var t1 := WithRoot(t, root);
            var p := Resolve(root, path);
            w == t1 ||
            (Within(root, p) && |p| > 0 && AllNames(p) && root in t1.dirs &&
             var parent := p[..|p| - 1];
             var t2 := Tree(t1.files, t1.dirs + Prefixes(parent));
             !BlockedByFile(t1, parent) &&
             (w == t2 || (p !in t2.dirs && w == Tree(t2.files[p := Text(content)], t2.dirs))))
  {
  }

  /** Storing a file whose ancestors are all folders keeps the tree well formed and the root clear. */
  lemma StorePreserves(t: Tree, root: Path, p: Path, content: string)
    requires WellFormed(t) && RootClear(t, root) && root in t.dirs
    requires p !in t.dirs && |p| > 0 && AllNames(p)
    requires forall i :: 0 < i < |p| ==> p[..i] in t.dirs
    ensures var t1 := Tree(t.files[p := Text(content)], t.dirs);
            WellFormed(t1) && RootClear(t1, root)
  {
    var t1 := Tree(t.files[p := Text(content)], t.dirs);
    forall i | 0 < i <= |root| ensures root[..i] !in t1.files {
      if i < |root| {
        assert root[..i] in t.dirs;
      } else {
        assert root[..i] == root;
      }
    }
  }

  // ----- Listing -----

  /** Two distinct files below the root have distinct listed names. */
  lemma RelNameInjective(root: Path, p: Path, q: Path)
    requires Within(root, p) && Within(root, q) && |p| > |root| && |q| > |root|
    requires AllNames(p) && AllNames(q) && p != q
    ensures RelName(root, p) != RelName(root, q)
  {
    if RelName(root, p) == RelName(root, q) {
      JoinInjective(p[|root|..], q[|root|..]);
      assert false;
    }
  }

  /** With no regular file below the root the listing is empty. */
  lemma ListingEmpty(files: map<Path, Content>, root: Path)
    requires forall p :: p in files ==> !Within(root, p) || |p| <= |root|
    ensures ListingOf(files, root) == ""
  {
    assert ListedNames(files, root) == {};
  }

  /** Storing a file strictly below the root adds its relative name to the listed names. */
  lemma ListedNamesStore(files: map<Path, Content>, root: Path, p: Path, c: Content)
    requires Within(root, p) && |p| > |root|
    ensures ListedNames(files[p := c], root) == ListedNames(files, root) + {RelName(root, p)}
  {
  }

  /** A successful write of a relative name below the root adds exactly that name to the listing. */
  lemma WriteListed(t: Tree, root: Path, segs: seq<string>, content: string)
    requires ValidRoot(root) && AllNames(segs) && |segs| >= 1
    requires Write(t, root, JoinWith(segs, "/"), content).result.Ok?
    ensures ListedNames(Write(t, root, JoinWith(segs, "/"), content).tree.files, root)
            == ListedNames(t.files, root) + {JoinWith(segs, "/")}
  {
    RelativeAccepted(root, segs);
    var p := root + segs;
    assert p[|root|..] == segs;
    assert Within(root, p);
    WriteFrame(t, root, JoinWith(segs, "/"), content);
    ListedNamesStore(t.files, root, p, Text(content));
  }

  /** The listing is the sorted, newline-joined list of the listed names, whatever order they were found in. */
  lemma ListingBy(s: seq<string>, files: map<Path, Content>, root: Path)
    requires StringOrder.Distinct(s) && StringOrder.Elems(s) == ListedNames(files, root)
    ensures ListingOf(files, root) == JoinWith(StringOrder.Sort(s), "\n")
  {
    var chosen := StringOrder.SetToSeq(ListedNames(files, root));
    StringOrder.DistinctMultiset(s);
    StringOrder.DistinctMultiset(chosen);
    StringOrder.SortDeterminedByMultiset(s, chosen);
  }

  /** The listing is the one sorted list without repetitions of the listed names, joined by newlines. */
  lemma ListingOfSorted(s: seq<string>, files: map<Path, Content>, root: Path)
    requires StringOrder.Sorted(s) && StringOrder.Distinct(s) && StringOrder.Elems(s) == ListedNames(files, root)
    ensures ListingOf(files, root) == JoinWith(s, "\n")
  {
    ListingBy(s, files, root);
    StringOrder.SortOfSorted(s);
  }

  lemma ThreeNamesOrdered()
    ensures StringOrder.Sorted(["a.txt", "b.txt", "c.txt"]) && StringOrder.Distinct(["a.txt", "b.txt", "c.txt"])
  {
    assert StringOrder.LexLe("a.txt", "b.txt") && StringOrder.LexLe("b.txt", "c.txt");
    StringOrder.LexTransitive("a.txt", "b.txt", "c.txt");
  }

  lemma ThreeNamesElems()
    ensures StringOrder.Elems(["a.txt", "b.txt", "c.txt"]) == {"b.txt", "c.txt", "a.txt"}
  {
  }

  lemma ThreeNamesJoined()
    ensures JoinWith(["a.txt", "b.txt", "c.txt"], "\n") == "a.txt\nb.txt\nc.txt"
  {
    var expected := ["a.txt", "b.txt", "c.txt"];
    assert expected[1..] == ["b.txt", "c.txt"] && expected[1..][1..] == ["c.txt"];
  }

  /** Files named `b.txt`, `c.txt` and `a.txt` below the root are listed in the order `a.txt`, `b.txt`, `c.txt`. */
  lemma ListingIsSorted(files: map<Path, Content>, root: Path)
    requires ListedNames(files, root) == {"b.txt", "c.txt", "a.txt"}
    ensures ListingOf(files, root) == "a.txt\nb.txt\nc.txt"
  {
    ThreeNamesOrdered();
    ThreeNamesElems();
    ThreeNamesJoined();
    ListingOfSorted(["a.txt", "b.txt", "c.txt"], files, root);
  }

  /** The listed names of those entries in `seen` that are regular files strictly below the root. */
  ghost function NamesOf(seen: set<Path>, files: map<Path, Content>, root: Path): set<string> {
    set q | q in seen && q in files && Within(root, q) && |q| > |root| :: RelName(root, q)
  }

  lemma NamesOfVisit(seen: set<Path>, fp: Path, files: map<Path, Content>, root: Path)
    requires Within(root, fp) && |fp| > |root|
    ensures NamesOf(seen + {fp}, files, root)
            == NamesOf(seen, files, root) + (if fp in files then {RelName(root, fp)} else {})
  {
  }

  lemma NamesOfAll(seen: set<Path>, files: map<Path, Content>, root: Path)
    requires forall q :: q in files && Within(root, q) && |q| > |root| ==> q in seen
    ensures NamesOf(seen, files, root) == ListedNames(files, root)
  {
  }

  /** A file not yet visited contributes a name not yet collected. */
  lemma NamesOfFresh(seen: set<Path>, files: map<Path, Content>, root: Path, fp: Path)
    requires forall q :: q in files ==> AllNames(q)
    requires fp in files && fp !in seen && Within(root, fp) && |fp| > |root|
    ensures RelName(root, fp) !in NamesOf(seen, files, root)
  {
    if RelName(root, fp) in NamesOf(seen, files, root) {
      var q :| q in seen && q in files && Within(root, q) && |q| > |root| && RelName(root, fp) == RelName(root, q);
      RelNameInjective(root, q, fp);
    }
  }

  /** One step of the walk keeps the collected names exactly those of the visited files, each once. */
  lemma VisitStep(found: seq<string>, seen: set<Path>, files: map<Path, Content>, root: Path, fp: Path)
    requires forall q :: q in files ==> AllNames(q)
    requires fp !in seen && Within(root, fp) && |fp| > |root|
    requires StringOrder.Distinct(found) && StringOrder.Elems(found) == NamesOf(seen, files, root)
    ensures var next := if fp in files then found + [RelName(root, fp)] else found;
            StringOrder.Distinct(next) && StringOrder.Elems(next) == NamesOf(seen + {fp}, files, root)
  {
    NamesOfVisit(seen, fp, files, root);
    if fp in files {
      NamesOfFresh(seen, files, root, fp);
      StringOrder.AppendFresh(found, RelName(root, fp));
    }
  }

  /** The walk of `list_files`: the names of the regular files among `entries`, each once, in whatever order the walk meets them. */
  method CollectNames(entries: set<Path>, files: map<Path, Content>, root: Path) returns (found: seq<string>)
    requires forall q :: q in entries ==> Within(root, q) && |q| > |root|
    requires forall q :: q in files ==> AllNames(q)
    ensures StringOrder.Distinct(found) && StringOrder.Elems(found) == NamesOf(entries, files, root)
  {
    found := [];
    var rest := entries;
    ghost var visited: set<Path> := {};
    while rest != {}
      invariant rest <= entries && visited == entries - rest
      invariant StringOrder.Distinct(found)
      invariant StringOrder.Elems(found) == NamesOf(visited, files, root)
      decreases |rest|
    {
      var fp :| fp in rest;
      VisitStep(found, visited, files, root, fp);
      if fp in files {
        found := found + [RelName(root, fp)];
      }
      rest := rest - {fp};
      visited := visited + {fp};
    }
  }

  // ----- The tools, performed on a mutable tree -----

  class Workspace {
    const root: Path
    var files: map<Path, Content>
    var dirs: set<Path>

    ghost predicate Valid()
      reads this
    {
      ValidRoot(root) && WellFormed(State())
    }

    function State(): Tree
      reads this
    {
      Tree(files, dirs)
    }

    /** `PROJECT_ROOT = Path.cwd() / "generated_site"` over whatever the working directory holds. */
    constructor (root: Path, files: map<Path, Content>, dirs: set<Path>)
      requires ValidRoot(root) && WellFormed(Tree(files, dirs))
      ensures Valid() && this.root == root && State() == Tree(files, dirs)
    {
      this.root := root;
      this.files := files;
      this.dirs := dirs;
    }

    /** `_ensure_root()`: raises `mkdir`'s error, changing nothing, when a regular file is in the root's way. */
    method EnsureRoot() returns (r: Result<()>)
      requires Valid()
      modifies this`dirs
      ensures Valid() && State() == Ensured(old(State()), root)
      ensures r.Err? <==> !RootClear(old(State()), root)
      ensures r.Err? ==> r.error == MkdirError(old(State()), root)
    {
      if BlockedByFile(State(), root) {
        return Err(MkdirError(State(), root));
      }
      WithRootPreserves(State(), root);
      dirs := dirs + Prefixes(root);
      r := Ok(());
    }

    /** `_safe_join(path)`: ensures the root, then resolves and checks containment. */
    method ResolveInRoot(path: string) returns (r: Result<Path>)
      requires Valid()
      modifies this`dirs
      ensures Valid() && State() == Ensured(old(State()), root)
      ensures !RootClear(old(State()), root) ==> r == Err(MkdirError(old(State()), root))
      ensures RootClear(old(State()), root) ==> r == SafeJoin(root, path)
    {
      var made := EnsureRoot();
      if made.Err? {
        return Err(made.error);
      }
      var p := Resolve(root, path);
      if !Within(root, p) {
        return Err(InvalidPath);
      }
      return Ok(p);
    }

    /** `write_file(path, content)`. */
    method WriteFile(path: string, content: string) returns (r: Result<string>)
      requires Valid()
      modifies this
      ensures Valid()
      ensures Outcome(State(), r) == Write(old(State()), root, path, content)
    {
      ghost var t0 := State();
      if RootClear(t0, root) {
        WritePreserves(t0, root, path, content);
      }
      var joined := ResolveInRoot(path);
      if joined.Err? {
        return Err(joined.error);
      }
      var p := joined.value;
      var parent := p[..|p| - 1];
      if BlockedByFile(State(), parent) {
        return Err(MkdirError(State(), parent));
      }
      dirs := dirs + Prefixes(parent);
      if p in dirs {
        return Err(IsADirectory);
      }
      files := files[p := Text(content)];
      r := Ok(Render(p));
    }

    /** `read_file(path)`: `read_text` decodes with universal newlines. */
    method ReadFile(path: string) returns (r: Result<string>)
      requires Valid()
      modifies this`dirs
      ensures Valid() && files == old(files)
      ensures Outcome(State(), r) == Read(old(State()), root, path)
      ensures r.Ok? ==> '\r' !in r.value
    {
      var joined := ResolveInRoot(path);
      if joined.Err? {
        return Err(joined.error);
      }
      var p := joined.value;
      if p in dirs {
        return Err(IsADirectory);
      }
      if p !in files {
        return Ok("");
      }
      match files[p]
      case Text(s) => r := Ok(UniversalNewlines(s));
      case Undecodable => r := Ok(BinarySentinel);
    }

    /** `list_files()`: walks the entries below the root and keeps the regular files. */
    method ListFiles() returns (r: Result<string>)
      requires Valid()
      modifies this`dirs
      ensures Valid() && State() == Ensured(old(State()), root)
      ensures !RootClear(old(State()), root) ==> r == Err(MkdirError(old(State()), root))
      ensures RootClear(old(State()), root) ==> r == Ok(ListingOf(files, root))
    {
      var made := EnsureRoot();
      if made.Err? {
        return Err(made.error);
      }
      var entries := set q | q in files.Keys + dirs && Within(root, q) && |q| > |root|;
      var found := CollectNames(entries, files, root);
      NamesOfAll(entries, files, root);
      ListingBy(found, files, root);
      r := Ok(JoinWith(StringOrder.Sort(found), "\n"));
    }

    /** `get_current_directory()`. */
    method GetCurrentDirectory() returns (r: Result<string>)
      requires Valid()
      modifies this`dirs
      ensures Valid() && State() == Ensured(old(State()), root)
      ensures !RootClear(old(State()), root) ==> r == Err(MkdirError(old(State()), root))
      ensures RootClear(old(State()), root) ==> r == Ok(Render(root))
    {
      var made := EnsureRoot();
      if made.Err? {
        return Err(made.error);
      }
      r := Ok(Render(root));
    }
  }
}
