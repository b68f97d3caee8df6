/** Loading the jail seed (loadRepoFiles): one walk that keeps text files until
    the limit is passed and only measures from there on. */
module SeedWalk {
  import opened SeedTree

  datatype Skip = Skip(path: Path, size: nat)

  /** The variables of the walk. An empty overAt says the limit is not passed:
      the path of a visited file is never empty. */
  datatype Progress = Progress(
    files: map<Path, Node>, binds: seq<Path>, skipped: seq<Skip>, total: nat, overAt: Path)

  const Start := Progress(map[], [], [], 0, [])

  /** Files the walk opens at all. */
  predicate Opened(v: Visit, o: Options) {
    v.FileAt? && v.file.File? && !v.file.symlink && !o.noFiles && v.file.name != ".git"
  }

  predicate FixturePath(v: Visit)
    requires v.FileAt? && v.file.File?
  {
    "testdata" in v.path || v.file.inTestTree
  }

  /** Files that belong in the seed. */
  predicate Counted(v: Visit, o: Options) {
    Opened(v, o) && (v.file.isText || FixturePath(v))
  }

  /** What one visit does to the walk's variables. */
  function Step(s: Progress, v: Visit, o: Options): Progress {
    if v.BoundAt? then s.(binds := s.binds + [v.path])
    else if !Opened(v, o) then s
    else if !Counted(v, o) then s.(skipped := s.skipped + [Skip(v.path, v.file.length)])
    else
      var total := s.total + v.file.length;
      if s.overAt != [] then s.(total := total)
      else if v.file.statSize > o.seedLimit - s.total || total > o.seedLimit then
        s.(total := total, overAt := v.path, files := map[])
      else s.(total := total, files := s.files[v.path := v.file])
  }

  function Walked(s: Progress, vs: seq<Visit>, o: Options): Progress
    decreases |vs|
  {
    if vs == [] then s else Walked(Step(s, vs[0], o), vs[1..], o)
  }

  lemma {:induction false} WalkedInTwo(s: Progress, vs: seq<Visit>, ws: seq<Visit>, o: Options)
    ensures Walked(s, vs + ws, o) == Walked(Walked(s, vs, o), ws, o)
    decreases |vs|
  {
    if vs == [] {
      assert vs + ws == ws;
    } else {
      assert (vs + ws)[1..] == vs[1..] + ws;
      WalkedInTwo(Step(s, vs[0], o), vs[1..], ws, o);
    }
  }

  // ---- The walk in place ----

  class SeedWalker {
    var files: map<Path, Node>
    var binds: seq<Path>
    var skipped: seq<Skip>
    var total: nat
    var overAt: Path

    function View(): Progress
      reads this
    {
      Progress(files, binds, skipped, total, overAt)
    }

    constructor ()
      ensures View() == Start
    {
      files, binds, skipped, total, overAt := map[], [], [], 0, [];
    }

    /** The walk's callback for a file. */
    method VisitFile(p: Path, f: Node, o: Options)
      requires f.File? && p != []
      modifies this
      ensures View() == Step(old(View()), FileAt(p, f), o)
    {
      if f.symlink || o.noFiles {
        return;
      }
      if f.name == ".git" {
        return;
      }
      if overAt != [] || f.statSize > o.seedLimit - total {
        if !f.isText && !("testdata" in p) && !f.inTestTree {
          skipped := skipped + [Skip(p, f.length)];
          return;
        }
        total := total + f.length;
        if overAt == [] {
          overAt := p;
          files := map[];
        }
        return;
      }
      if !f.isText && !("testdata" in p) && !f.inTestTree {
        skipped := skipped + [Skip(p, f.length)];
        return;
      }
      total := total + f.length;
      if overAt == [] && total > o.seedLimit {
        overAt := p;
        files := map[];
      }
      if overAt == [] {
        files := files[p := f];
      }
    }

    method Walk(d: Node, at: Path, o: Options)
      requires d.Dir?
      modifies this
      ensures View() == Walked(old(View()), Visits(d, at, 0, o), o)
      decreases d
    {
      for i := 0 to |d.entries|
        invariant Walked(View(), Visits(d, at, i, o), o) == Walked(old(View()), Visits(d, at, 0, o), o)
      {
        var n := d.entries[i];
        var p := at + [n.name];
        WalkedInTwo(View(), VisitEntry(d, at, i, o), Visits(d, at, i + 1, o), o);
        ghost var before := View();
        if n.Dir? {
          if n.name == ".git" || IsBuildDir(d, n.name) {
          } else if ShouldBind(p, n, o) {
            binds := binds + [p];
          } else {
            Walk(n, p, o);
          }
        } else {
          VisitFile(p, n, o);
        }
        assert View() == Walked(before, VisitEntry(d, at, i, o), o);
      }
    }
  }

  datatype Seed =
    | NoLimitGiven
    | TooLarge(total: nat, overAt: Path)
    | Loaded(files: map<Path, Node>, binds: seq<Path>, skipped: seq<Skip>)

  function SeedOf(root: Node, o: Options): Seed
    requires root.Dir?
  {
    if !o.noFiles && o.seedLimit <= 0 then NoLimitGiven
    else
      var end := Walked(Start, Visits(root, [], 0, o), o);
      if end.overAt != [] then TooLarge(end.total, end.overAt) else Loaded(end.files, end.binds, end.skipped)
  }

  method LoadRepoFiles(root: Node, o: Options) returns (seed: Seed)
    requires root.Dir?
    ensures seed == SeedOf(root, o)
  {
    if !o.noFiles && o.seedLimit <= 0 {
      return NoLimitGiven;
    }
    var walker := new SeedWalker();
    walker.Walk(root, [], o);
    if walker.overAt != [] {
      return TooLarge(walker.total, walker.overAt);
    }
    seed := Loaded(walker.files, walker.binds, walker.skipped);
  }
}
