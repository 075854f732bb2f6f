/** Workspaces on one disk: what a snapshotter sees of it and what a restore does to it
    (`src/paa/validation/workspace.py`, behind the protocol of `src/paa/ledger/recovery.py`).
    Workspaces may lie inside one another, so they share files. */
module Workspace {
  /** The segments of a resolved absolute path. */
  type Path = seq<string>

  predicate Under(dir: Path, p: Path) { |dir| < |p| && p[..|dir|] == dir }

  /** File digests by full path; below one root that is the same as by relative path. */
  type Manifest = map<Path, string>

  datatype Disk = Disk(files: Manifest, dirs: set<Path>)

  /** Files and directories stand in directories. */
  predicate ValidDisk(disk: Disk) {
    && (forall p, k :: p in disk.files && 0 <= k < |p| ==> p[..k] in disk.dirs)
    && (forall q, k :: q in disk.dirs && 0 <= k <= |q| ==> q[..k] in disk.dirs)
  }

  /** `manifest(root)`: every file under the root. */
  function ManifestOf(disk: Disk, dir: Path): Manifest {
    map p | p in disk.files && Under(dir, p) :: disk.files[p]
  }

  predicate Within(dir: Path, m: Manifest) { forall p :: p in m ==> Under(dir, p) }

  lemma ManifestIsWithin(disk: Disk, dir: Path)
    ensures Within(dir, ManifestOf(disk, dir))
  {
  }

  function Ancestors(m: Manifest): set<Path> { set p, k | p in m && 0 <= k < |p| :: p[..k] }

  /** `restore(root, manifest)`: listed files are put back with the directories they need,
      files that are not listed are unlinked, directories stay. */
  function Restore(disk: Disk, dir: Path, m: Manifest): Disk {
    Disk((map p | p in disk.files && !Under(dir, p) :: disk.files[p]) + m, disk.dirs + Ancestors(m))
  }

  lemma RestoreEstablishes(disk: Disk, dir: Path, m: Manifest)
    requires Within(dir, m)
    ensures ManifestOf(Restore(disk, dir, m), dir) == m
  {
  }

  lemma RestoreKeepsValid(disk: Disk, dir: Path, m: Manifest)
    requires ValidDisk(disk)
    ensures ValidDisk(Restore(disk, dir, m)) && disk.dirs <= Restore(disk, dir, m).dirs
  {
    var disk' := Restore(disk, dir, m);
    forall q, k | q in disk'.dirs && 0 <= k <= |q| ensures q[..k] in disk'.dirs {
      if q !in disk.dirs {
        var p, j :| p in m && 0 <= j < |p| && p[..j] == q;
        assert p[..k] == q[..k];
        assert p[..k] in Ancestors(m);
      }
    }
    forall p, k | p in disk'.files && 0 <= k < |p| ensures p[..k] in disk'.dirs {
      if p in m { assert p[..k] in Ancestors(m); }
    }
  }

  /** Two manifests say the same about every path both roots cover. */
  predicate Agree(a: Path, ma: Manifest, b: Path, mb: Manifest) {
    forall p :: p in ma.Keys + mb.Keys && Under(a, p) && Under(b, p) ==> p in ma && p in mb && ma[p] == mb[p]
  }

  /** Two manifests of one disk agree. */
  lemma SameDiskAgrees(disk: Disk, a: Path, b: Path)
    ensures Agree(a, ManifestOf(disk, a), b, ManifestOf(disk, b))
  {
  }

  /** Restoring one workspace keeps another that agrees with it as it was. */
  lemma RestoreKeepsOther(disk: Disk, a: Path, ma: Manifest, b: Path, mb: Manifest)
    requires ManifestOf(disk, a) == ma && Within(b, mb) && Agree(a, ma, b, mb)
    ensures ManifestOf(Restore(disk, b, mb), a) == ma
  {
    var now := ManifestOf(Restore(disk, b, mb), a);
    forall p ensures (p in now <==> p in ma) && (p in now ==> now[p] == ma[p]) {
      if Under(a, p) && Under(b, p) {
        assert p in now <==> p in mb;
      } else {
        assert p in mb ==> Under(b, p);
        assert p in now <==> p in ManifestOf(disk, a);
      }
    }
  }

  /** The manifest puts a file below this directory. */
  predicate Touches(m: Manifest, dir: Path) { exists p :: p in m && Under(dir, p) }

  lemma ShorterIsPrefix(x: Path, b: Path, p: Path)
    requires |b| <= |x| <= |p| && p[..|x|] == x && p[..|b|] == b
    ensures x[..|b|] == b
  {
    assert p[..|x|][..|b|] == p[..|b|];
  }

  /** A restore only creates directories inside its own root. */
  lemma CreatedIsInside(disk: Disk, x: Path, mx: Manifest, b: Path)
    requires ValidDisk(disk) && Within(x, mx) && x in disk.dirs && b !in disk.dirs && b in Restore(disk, x, mx).dirs
    ensures Touches(mx, b) && |x| < |b| && b[..|x|] == x
  {
    var p, k :| p in mx && 0 <= k < |p| && p[..k] == b;
    assert Under(b, p) && Under(x, p);
    if |b| <= |x| { ShorterIsPrefix(x, b, p); }
    assert b[..|x|] == p[..|x|];
  }

  /** A missing workspace that such a restore creates is as its own checkpoint wants it,
      when the two agree. */
  lemma CreatedIsAsAgreed(disk: Disk, x: Path, mx: Manifest, b: Path, mb: Manifest)
    requires ValidDisk(disk) && Within(x, mx) && Within(b, mb) && x in disk.dirs && b !in disk.dirs && b in Restore(disk, x, mx).dirs
    requires Agree(x, mx, b, mb)
    ensures ManifestOf(Restore(disk, x, mx), b) == mb
  {
    CreatedIsInside(disk, x, mx, b);
    var now := ManifestOf(Restore(disk, x, mx), b);
    forall p ensures (p in now <==> p in mb) && (p in now ==> now[p] == mb[p]) {
      if Under(b, p) {
        assert p[..|x|] == b[..|x|] == x;
        assert Under(x, p);
        assert p in now <==> p in mx;
      }
    }
  }

  /** A file below a directory means the directory is there. */
  lemma FileImpliesDir(disk: Disk, dir: Path, p: Path)
    requires ValidDisk(disk) && p in disk.files && Under(dir, p)
    ensures dir in disk.dirs
  {
    assert p[..|dir|] == dir;
  }
}
