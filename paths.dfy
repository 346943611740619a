/**
 * Lexical model of the POSIX paths that the file tools resolve.
 *
 * A normalised absolute path is the list of its segments below `/`
 * (`/home/u/generated_site` is `["home", "u", "generated_site"]`, `/` is `[]`).
 * `pathlib`'s `resolve()` is modelled as lexical normalisation: empty and `.`
 * segments are dropped, `..` drops the last segment (and stays at `/`), and an
 * absolute argument replaces the base it is joined to.
 */
module Paths {

  type Path = seq<string>

  /** A segment that survives normalisation unchanged. */
  predicate IsName(seg: string) {
    seg != "" && seg != "." && seg != ".." && '/' !in seg
  }

  predicate AllNames(p: seq<string>) {
    forall k :: 0 <= k < |p| ==> IsName(p[k])
  }

  /** A sandbox root: an absolute normalised path with at least one segment. */
  predicate ValidRoot(root: Path) {
    |root| > 0 && AllNames(root)
  }

  /** Python's `sep.join(parts)`. */
  function JoinWith(parts: seq<string>, sep: string): string {
    if |parts| == 0 then ""
    else if |parts| == 1 then parts[0]
    else parts[0] + sep + JoinWith(parts[1..], sep)
  }

  /** Splitting a path string on `/`; `"a//b"` gives `["a", "", "b"]`. */
  function Split(s: string): (r: seq<string>)
    ensures |r| >= 1
    ensures forall k :: 0 <= k < |r| ==> '/' !in r[k]
  {
    if s == [] then [""]
    else
      var rest := Split(s[1..]);
      if s[0] == '/' then [""] + rest
      else [[s[0]] + rest[0]] + rest[1..]
  }

  /** One step of `resolve()` over a single segment. */
  function Step(acc: Path, seg: string): Path {
    if seg == "" || seg == "." then acc
    else if seg == ".." then (if acc == [] then [] else acc[..|acc| - 1])
    else acc + [seg]
  }

  function Normalize(acc: Path, segs: seq<string>): (r: Path)
    ensures AllNames(acc) && (forall k :: 0 <= k < |segs| ==> '/' !in segs[k]) ==> AllNames(r)
    decreases |segs|
  {
    if segs == [] then acc else Normalize(Step(acc, segs[0]), segs[1..])
  }

  /** `(root / path).resolve()`, without symbolic links. */
  function Resolve(root: Path, path: string): (p: Path)
    ensures AllNames(root) ==> AllNames(p)
  {
    Normalize(if |path| > 0 && path[0] == '/' then [] else root, Split(path))
  }

  /** `p.parents` of an absolute path: every proper ancestor, down to `/`. */
  function Parents(p: Path): set<Path> {
    set i | 0 <= i < |p| :: p[..i]
  }

  /** `p == root or root in p.parents`: `p` is the root or lies below it. */
  predicate Within(root: Path, p: Path) {
    |root| <= |p| && p[..|root|] == root
  }

  /** The prefix test is Python's test against the path's ancestors. */
  lemma WithinParents(root: Path, p: Path)
    ensures Within(root, p) <==> p == root || root in Parents(p)
  {
    if |root| < |p| && p[..|root|] == root {
      assert root in Parents(p);
    }
  }

  /** `str(p)` of an absolute path. */
  function Render(p: Path): string {
    "/" + JoinWith(p, "/")
  }

  // ----- Splitting and joining are inverse -----

  lemma JoinCons(x: string, rest: seq<string>, sep: string)
    requires |rest| >= 1
    ensures JoinWith([x] + rest, sep) == x + sep + JoinWith(rest, sep)
  {
    assert ([x] + rest)[1..] == rest;
  }

  lemma {:induction false} SplitNoSlash(a: string)
    requires '/' !in a
    ensures Split(a) == [a]
  {
    if a != [] {
      SplitNoSlash(a[1..]);
      assert [a[0]] + a[1..] == a;
    }
  }

  lemma {:induction false} SplitAtSlash(a: string, b: string)
    requires '/' !in a
    ensures Split(a + "/" + b) == [a] + Split(b)
  {
    var s := a + "/" + b;
    if a == [] {
      assert s[0] == '/' && s[1..] == b;
    } else {
      assert s[0] == a[0] && s[1..] == a[1..] + "/" + b;
      SplitAtSlash(a[1..], b);
      assert [a[0]] + a[1..] == a;
    }
  }

  /** Joining '/'-free segments with `/` and splitting again gives them back. */
  lemma {:induction false} SplitJoin(segs: seq<string>)
    requires |segs| >= 1
    requires forall k :: 0 <= k < |segs| ==> '/' !in segs[k]
    ensures Split(JoinWith(segs, "/")) == segs
  {
    if |segs| == 1 {
      SplitNoSlash(segs[0]);
    } else {
      SplitJoin(segs[1..]);
      SplitAtSlash(segs[0], JoinWith(segs[1..], "/"));
      assert [segs[0]] + segs[1..] == segs;
    }
  }

  /** Every string is recovered by joining its `/`-split segments. */
  lemma {:induction false} JoinSplit(s: string)
    ensures JoinWith(Split(s), "/") == s
  {
    if s != [] {
      var rest := Split(s[1..]);
      JoinSplit(s[1..]);
      if s[0] == '/' {
        JoinCons("", rest, "/");
        assert s == "/" + s[1..];
      } else if |rest| == 1 {
        assert [s[0]] + s[1..] == s;
      } else {
        JoinCons(rest[0], rest[1..], "/");
        assert [rest[0]] + rest[1..] == rest;
        assert [s[0]] + s[1..] == s;
      }
    }
  }

  /** Distinct lists of names render to distinct relative paths. */
  lemma JoinInjective(a: seq<string>, b: seq<string>)
    requires |a| >= 1 && |b| >= 1 && AllNames(a) && AllNames(b)
    requires JoinWith(a, "/") == JoinWith(b, "/")
    ensures a == b
  {
    SplitJoin(a);
    SplitJoin(b);
  }

  // ----- Normalisation -----

  /** Segments that are all names are appended unchanged. */
  lemma {:induction false} NormalizeNames(acc: Path, segs: seq<string>)
    requires AllNames(segs)
    ensures Normalize(acc, segs) == acc + segs
    decreases |segs|
  {
    if segs != [] {
      NormalizeNames(acc + [segs[0]], segs[1..]);
      assert acc + [segs[0]] + segs[1..] == acc + segs;
    }
  }

  /** A relative path made of names resolves to that many segments below the root. */
  lemma ResolveRelative(root: Path, segs: seq<string>)
    requires AllNames(segs)
    ensures Resolve(root, JoinWith(segs, "/")) == root + segs
  {
    if segs == [] {
      assert Split("") == [""];
      assert [""][1..] == [];
      assert Normalize(root, [""]) == Normalize(Step(root, ""), []);
    } else {
      SplitJoin(segs);
      var s := JoinWith(segs, "/");
      if |segs| == 1 {
        assert s == segs[0];
      } else {
        JoinCons(segs[0], segs[1..], "/");
        assert [segs[0]] + segs[1..] == segs;
        assert s == segs[0] + "/" + JoinWith(segs[1..], "/");
      }
      assert s[0] == segs[0][0];
      NormalizeNames(root, segs);
    }
  }

  /** An absolute path made of names resolves to itself, whatever the root. */
  lemma ResolveAbsolute(root: Path, q: Path)
    requires AllNames(q)
    ensures Resolve(root, "/" + JoinWith(q, "/")) == q
  {
    var s := "/" + JoinWith(q, "/");
    assert s == "" + "/" + JoinWith(q, "/");
    SplitAtSlash("", JoinWith(q, "/"));
    if q == [] {
      assert Split("") == [""];
      assert Split(s) == ["", ""];
      assert ["", ""][1..] == [""] && [""][1..] == [];
      assert Normalize([], ["", ""]) == Normalize([], [""]);
      assert Normalize([], [""]) == Normalize([], []);
    } else {
      SplitJoin(q);
      assert Split(s) == [""] + q;
      assert ([""] + q)[1..] == q;
      assert Normalize([], [""] + q) == Normalize([], q);
      NormalizeNames([], q);
    }
  }

  /** `../name` climbs out of the root and lands beside it. */
  lemma ResolveParentEscape(root: Path, name: string)
    requires |root| >= 1 && IsName(name)
    ensures Resolve(root, "../" + name) == root[..|root| - 1] + [name]
  {
    var s := "../" + name;
    assert s == ".." + "/" + name;
    SplitAtSlash("..", name);
    SplitNoSlash(name);
    assert Split(s) == ["..", name];
    assert ["..", name][1..] == [name] && [name][1..] == [];
    assert Normalize(root, ["..", name]) == Normalize(root[..|root| - 1], [name]);
    assert Normalize(root[..|root| - 1], [name]) == Normalize(root[..|root| - 1] + [name], []);
  }
}
