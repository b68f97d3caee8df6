/** The tree the jail seed is taken from, and what a walk of it visits.

    A path is its list of names. Whether a file is text, whether it lies in a
    language's test tree, and the size the directory entry claims are inputs; so
    is the order of the entries, which is the order the walk lists them in. */
module SeedTree {
  type Path = seq<string>

  /** statSize is what the directory entry says, length what reading it gives.
      They differ only for a file that changes under the walk. */
  datatype Node =
    | File(name: string, regular: bool, symlink: bool, statSize: nat, length: nat, isText: bool, inTestTree: bool)
    | Dir(name: string, worldReadable: bool, entries: seq<Node>)

  datatype Options = Options(
    backend: string, extraBinds: set<Path>, depNames: set<string>, noBindDeps: bool, noFiles: bool, seedLimit: int)

  /** A language's build directory: its name, and the file that must lie beside it. */
  const BuildDirName := "target"
  const BuildMarker := "Cargo.toml"

  /** The marker is looked up through links: what counts is that it leads to a
      regular file. */
  predicate IsBuildDir(d: Node, name: string)
    requires d.Dir?
  {
    name == BuildDirName &&
    exists k :: 0 <= k < |d.entries| && d.entries[k].name == BuildMarker && d.entries[k].File? && d.entries[k].regular
  }

  predicate ShouldBind(p: Path, dir: Node, o: Options)
    requires dir.Dir?
  {
    && !o.noBindDeps
    && (dir.name in o.depNames || p in o.extraBinds)
    && (o.backend == "bwrap" || (o.backend == "container" && dir.worldReadable))
  }

  /** Entry k of the directory d is a directory the walk never looks into. */
  predicate Pruned(d: Node, k: nat)
    requires d.Dir? && k < |d.entries| && d.entries[k].Dir?
  {
    d.entries[k].name == ".git" || IsBuildDir(d, d.entries[k].name)
  }

  datatype Visit = FileAt(path: Path, file: Node) | BoundAt(path: Path, dir: Node)

  /** What the walk meets from entry i of d on, in order. */
  function Visits(d: Node, at: Path, i: nat, o: Options): seq<Visit>
    requires d.Dir? && i <= |d.entries|
    decreases d, |d.entries| - i
  {
    if i == |d.entries| then []
    else VisitEntry(d, at, i, o) + Visits(d, at, i + 1, o)
  }

  function VisitEntry(d: Node, at: Path, i: nat, o: Options): seq<Visit>
    requires d.Dir? && i < |d.entries|
    decreases d, |d.entries| - i, 0
  {
    var n := d.entries[i];
    var p := at + [n.name];
    if n.File? then [FileAt(p, n)]
    else if Pruned(d, i) then []
    else if ShouldBind(p, n, o) then [BoundAt(p, n)]
    else Visits(n, p, 0, o)
  }

  // ---- The same, said without an order ----

  /** The directory entry k of d, at at, is walked into. */
  predicate Entered(d: Node, at: Path, k: nat, o: Options)
    requires d.Dir? && k < |d.entries|
  {
    d.entries[k].Dir? && !Pruned(d, k) && !ShouldBind(at + [d.entries[k].name], d.entries[k], o)
  }

  /** Going down from d by the names in rest leads to the visit v, through
      directories that are neither pruned nor bound. */
  ghost predicate Reaches(d: Node, at: Path, rest: Path, o: Options, v: Visit)
    requires d.Dir?
    decreases d
  {
    rest != [] &&
    exists k :: 0 <= k < |d.entries| && d.entries[k].name == rest[0] && EntryReaches(d, at, k, rest, o, v)
  }

  ghost predicate EntryReaches(d: Node, at: Path, k: nat, rest: Path, o: Options, v: Visit)
    requires d.Dir? && k < |d.entries| && rest != []
    decreases d, 0
  {
    var n := d.entries[k];
    var p := at + [n.name];
    if n.File? then |rest| == 1 && v == FileAt(p, n)
    else if Entered(d, at, k, o) then Reaches(n, p, rest[1..], o, v)
    else |rest| == 1 && !Pruned(d, k) && v == BoundAt(p, n)
  }

  /** v lies below at, through entry k. */
  ghost predicate Through(d: Node, at: Path, k: int, o: Options, v: Visit)
    requires d.Dir?
  {
    && 0 <= k < |d.entries| && |at| < |v.path| && v.path[..|at|] == at && v.path[|at|] == d.entries[k].name
    && EntryReaches(d, at, k, v.path[|at|..], o, v)
  }

  /** Below an entered directory, through it is the same as through one of its
      own entries. */
  lemma EnteredThrough(d: Node, at: Path, i: nat, o: Options, v: Visit)
    requires d.Dir? && i < |d.entries| && Entered(d, at, i, o)
    ensures Through(d, at, i, o, v) <==> exists k :: Through(d.entries[i], at + [d.entries[i].name], k, o, v)
  {
    var n := d.entries[i];
    var p := at + [n.name];
    assert p[..|at|] == at && p[|at|] == n.name;
    if Through(d, at, i, o, v) {
      var rest := v.path[|at|..];
      assert Reaches(n, p, rest[1..], o, v);
      assert rest[1..] == v.path[|p|..];
      var k :| 0 <= k < |n.entries| && n.entries[k].name == rest[1..][0] && EntryReaches(n, p, k, rest[1..], o, v);
      assert v.path[..|p|] == p;
      assert Through(n, p, k, o, v);
    }
    forall k | Through(n, p, k, o, v)
      ensures Through(d, at, i, o, v)
    {
      var rest := v.path[|at|..];
      assert at == p[..|at|] == v.path[..|at|];
      assert v.path[|at|] == v.path[..|p|][|at|] == p[|at|];
      assert rest[1..] == v.path[|p|..];
      assert n.entries[k].name == rest[1..][0];
      assert Reaches(n, p, rest[1..], o, v);
    }
  }

  lemma {:induction false} EntryVisitsReached(d: Node, at: Path, i: nat, o: Options, v: Visit)
    requires d.Dir? && i < |d.entries|
    ensures v in VisitEntry(d, at, i, o) <==> Through(d, at, i, o, v)
    decreases d, |d.entries| - i, 0
  {
    var n := d.entries[i];
    var p := at + [n.name];
    if Entered(d, at, i, o) {
      VisitsReached(n, p, 0, o, v);
      EnteredThrough(d, at, i, o, v);
    } else {
      assert p[..|at|] == at && p[|at|] == n.name && |p[|at|..]| == 1;
    }
  }

  /** The walk visits exactly what can be reached without going through a pruned
      or a bound directory. */
  lemma {:induction false} VisitsReached(d: Node, at: Path, i: nat, o: Options, v: Visit)
    requires d.Dir? && i <= |d.entries|
    ensures v in Visits(d, at, i, o) <==> exists k :: i <= k && Through(d, at, k, o, v)
    decreases d, |d.entries| - i
  {
    if i < |d.entries| {
      EntryVisitsReached(d, at, i, o, v);
      VisitsReached(d, at, i + 1, o, v);
    }
  }

  /** No directory lists one name twice. */
  ghost predicate WellNamed(d: Node)
    requires d.Dir?
  {
    && (forall i, j :: 0 <= i < j < |d.entries| ==> d.entries[i].name != d.entries[j].name)
    && (forall i :: 0 <= i < |d.entries| && d.entries[i].Dir? ==> WellNamed(d.entries[i]))
  }

  ghost predicate PathsDistinct(vs: seq<Visit>) {
    forall a, b :: 0 <= a < b < |vs| ==> vs[a].path != vs[b].path
  }

  /** So no path is visited twice. */
  lemma {:induction false} VisitsDistinct(d: Node, at: Path, i: nat, o: Options)
    requires d.Dir? && i <= |d.entries| && WellNamed(d)
    ensures PathsDistinct(Visits(d, at, i, o))
    decreases d, |d.entries| - i
  {
    if i < |d.entries| {
      var n := d.entries[i];
      if Entered(d, at, i, o) {
        VisitsDistinct(n, at + [n.name], 0, o);
      }
      VisitsDistinct(d, at, i + 1, o);
      var here, later := VisitEntry(d, at, i, o), Visits(d, at, i + 1, o);
      forall a, b | 0 <= a < |here| && 0 <= b < |later|
        ensures here[a].path != later[b].path
      {
        EntryVisitsReached(d, at, i, o, here[a]);
        assert here[a] in here && later[b] in later;
        VisitsReached(d, at, i + 1, o, later[b]);
      }
    }
  }

  // ---- What becomes of a directory ----

  /** A dependency directory, by its own name or by the operator's, and a backend
      that can mount it where the run will look for it. */
  predicate MayBind(p: Path, dir: Node, o: Options) {
    && dir.Dir? && !o.noBindDeps
    && (dir.name in o.depNames || p in o.extraBinds)
    && (o.backend == "bwrap" || (o.backend == "container" && dir.worldReadable))
  }

  /** Whatever is met as bound is a directory that may be, at the path it is said to
      be at, and not the repository's own records. */
  lemma {:induction false} BoundMayBind(d: Node, at: Path, k: nat, o: Options, v: Visit)
    requires d.Dir? && k < |d.entries| && Through(d, at, k, o, v) && v.BoundAt?
    ensures v.path != [] && MayBind(v.path, v.dir, o) && v.dir.name == v.path[|v.path| - 1] && v.dir.name != ".git"
    decreases d
  {
    var n := d.entries[k];
    var p := at + [n.name];
    assert p[..|at|] == at && p[|at|] == n.name;
    if Entered(d, at, k, o) {
      EnteredThrough(d, at, k, o, v);
      var l :| Through(n, p, l, o, v);
      BoundMayBind(n, p, l, o, v);
    } else {
      assert v == BoundAt(p, n);
    }
  }

  /** A build directory: target, beside a Cargo.toml that leads to a regular file. */
  ghost predicate IsTargetOf(d: Node, k: nat)
    requires d.Dir? && k < |d.entries|
  {
    d.entries[k].name == "target" &&
    exists l :: 0 <= l < |d.entries| && d.entries[l].name == "Cargo.toml" && d.entries[l].File? && d.entries[l].regular
  }

  /** What the walk does with a directory: not at all with the repository's records
      and with a build directory, as a whole with one that may be bound, and with
      any other through its entries. */
  lemma DirectoryRules(d: Node, at: Path, k: nat, o: Options)
    requires d.Dir? && k < |d.entries| && d.entries[k].Dir?
    ensures var n, p := d.entries[k], at + [d.entries[k].name];
            && (n.name == ".git" || IsTargetOf(d, k) ==> VisitEntry(d, at, k, o) == [])
            && (n.name != ".git" && !IsTargetOf(d, k) && MayBind(p, n, o) ==>
                  VisitEntry(d, at, k, o) == [BoundAt(p, n)])
            && (n.name != ".git" && !IsTargetOf(d, k) && !MayBind(p, n, o) ==>
                  VisitEntry(d, at, k, o) == Visits(n, p, 0, o))
  {
  }
}
