/**
 * The file system and `tar` as the maintenance commands see them: a set of
 * existing paths (directories and files alike) and, for each archive the
 * commands created, the set of paths packed into it relative to the
 * directory it was made from. Project paths are relative to the project
 * root; scratch directories of a restore are absolute.
 */
module KoharuFs {

  /** `p` is `root` or lies below it. */
  predicate Under(p: string, root: string) {
    p == root || root + "/" <= p
  }

  /** `path.join(a, b)` for clean relative `b`. */
  function PathJoin(a: string, b: string): string {
    a + "/" + b
  }

  /** The index of the last `/` in `p`, if any. */
  function LastSlash(p: string): (r: int)
    ensures -1 <= r < |p|
    ensures r >= 0 ==> p[r] == '/'
    ensures forall i :: r < i < |p| ==> p[i] != '/'
  {
    if p == [] then -1
    else if p[|p| - 1] == '/' then |p| - 1
    else LastSlash(p[..|p| - 1])
  }

  /**
   * `path.dirname(p)` for a path that contains a `/` after its first
   * character. Node gives `/` for a path such as `/x`, whose only slash is
   * the first character; the paths joined here never have that shape.
   */
  function Dirname(p: string): string {
    var k := LastSlash(p);
    if k <= 0 then "." else p[..k]
  }

  lemma DirnameOfJoin(a: string, b: string)
    requires forall i :: 0 <= i < |b| ==> b[i] != '/'
    requires a != []
    ensures Dirname(PathJoin(a, b)) == a
  {
    var p := PathJoin(a, b);
    assert p[|a|] == '/';
    assert forall i :: |a| < i < |p| ==> p[i] == b[i - |a| - 1];
    assert LastSlash(p) == |a|;
    assert p[..|a|] == a;
  }

  /** The tree below `root` is gone; everything else stays. */
  function Removed(paths: set<string>, root: string): (r: set<string>)
    ensures forall p :: p in r <==> p in paths && !Under(p, root)
  {
    set p | p in paths && !Under(p, root)
  }

  /** `src`'s tree placed at `dst`, next to what was there. */
  function Copied(paths: set<string>, src: string, dst: string): (r: set<string>)
    ensures paths <= r
    ensures forall q :: q in paths && Under(q, src) ==> dst + q[|src|..] in r
  {
    paths + set q | q in paths && Under(q, src) :: dst + q[|src|..]
  }

  /** What a copy adds lies below the destination. */
  lemma CopiedUnder(paths: set<string>, src: string, dst: string)
    ensures forall p :: p in Copied(paths, src, dst) ==> p in paths || Under(p, dst)
  {
    forall p | p in Copied(paths, src, dst) && p !in paths ensures Under(p, dst) {
      var q :| q in paths && Under(q, src) && p == dst + q[|src|..];
      if q != src {
        assert (src + "/")[|src|] == '/';
        assert q[|src|] == '/';
        assert p == dst + q[|src|..];
        assert (dst + "/") <= p by {
          assert p[..|dst| + 1] == dst + [q[|src|]];
        }
      } else {
        assert p == dst;
      }
    }
  }

  /** The paths of the tree below `root`, relative to it, as `tar -C root .` packs them. */
  function Relative(paths: set<string>, root: string): set<string> {
    set p | p in paths && root + "/" <= p :: p[|root| + 1..]
  }

  /** The paths `tar -x -C dir` creates for an archive's members. */
  function Extracted(members: set<string>, dir: string): (r: set<string>)
    ensures forall m :: m in members ==> PathJoin(dir, m) in r
    ensures forall p :: p in r ==> dir + "/" <= p
  {
    set m | m in members :: PathJoin(dir, m)
  }

  class FileSystem {
    /** Every existing path, directories included. */
    var paths: set<string>
    /** For every archive written, the relative paths packed into it. */
    var archives: map<string, set<string>>

    constructor(initial: set<string>, archived: map<string, set<string>>)
      ensures paths == initial && archives == archived
    {
      paths := initial;
      archives := archived;
    }

    /** `fs.existsSync(p)`. */
    predicate Exists(p: string)
      reads this
    {
      p in paths
    }

    /** `fs.mkdirSync(p, { recursive: true })`; the directories above `p` are not tracked. */
    method MakeDir(p: string)
      modifies this
      ensures paths == old(paths) + {p} && archives == old(archives)
    {
      paths := paths + {p};
    }

    /** `fs.writeFileSync(p, …)`. */
    method WriteFile(p: string)
      modifies this
      ensures paths == old(paths) + {p} && archives == old(archives)
    {
      paths := paths + {p};
    }

    /** `fs.rmSync(root, { recursive: true, force: true })`. */
    method RemoveTree(root: string)
      modifies this
      ensures paths == Removed(old(paths), root) && archives == old(archives)
    {
      paths := Removed(paths, root);
    }

    /** `fs.cpSync(src, dst, { recursive: true })`. */
    method CopyTree(src: string, dst: string)
      modifies this
      ensures paths == Copied(old(paths), src, dst) && archives == old(archives)
    {
      paths := Copied(paths, src, dst);
    }

    /** `tar -czf archive -C dir .`. */
    method Pack(archive: string, dir: string)
      modifies this
      ensures paths == old(paths) + {archive}
      ensures archives == old(archives)[archive := Relative(old(paths), dir)]
    {
      archives := archives[archive := Relative(paths, dir)];
      paths := paths + {archive};
    }

    /** `tar -xzf archive -C dir` for an archive this model knows. */
    method Unpack(archive: string, dir: string)
      requires archive in archives
      modifies this
      ensures archives == old(archives) && paths == old(paths) + Extracted(old(archives)[archive], dir)
    {
      paths := paths + Extracted(archives[archive], dir);
    }
  }
}
