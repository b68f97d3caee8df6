/** What loading the jail seed comes to: the walk's answer said without a walk. */
module SeedResult {
  import opened SeedTree
  import opened SeedWalk

  /** The size of everything that belongs in the seed. */
  function TotalOf(vs: seq<Visit>, o: Options): nat {
    if vs == [] then 0
    else
      var n := |vs| - 1;
      TotalOf(vs[..n], o) + if Counted(vs[n], o) then vs[n].file.length else 0
  }

  /** Every opened file that does not belong in the seed, in order. */
  function SkipsOf(vs: seq<Visit>, o: Options): seq<Skip> {
    if vs == [] then []
    else
      var n := |vs| - 1;
      SkipsOf(vs[..n], o) +
      if Opened(vs[n], o) && !Counted(vs[n], o) then [Skip(vs[n].path, vs[n].file.length)] else []
  }

  function BindsOf(vs: seq<Visit>): seq<Path> {
    if vs == [] then []
    else
      var n := |vs| - 1;
      BindsOf(vs[..n]) + if vs[n].BoundAt? then [vs[n].path] else []
  }

  function Max(a: nat, b: nat): nat { if a < b then b else a }

  /** The k-th visit would not fit after everything before it, by the size its
      directory entry claims or by the size it turns out to have. */
  predicate Crosses(vs: seq<Visit>, k: nat, o: Options) {
    k < |vs| && Counted(vs[k], o) &&
    TotalOf(vs[..k], o) + Max(vs[k].file.statSize, vs[k].file.length) > o.seedLimit
  }

  predicate FirstCrossing(vs: seq<Visit>, k: nat, o: Options) {
    Crosses(vs, k, o) && forall j: nat :: j < k ==> !Crosses(vs, j, o)
  }

  ghost predicate Fits(vs: seq<Visit>, o: Options) {
    forall k: nat :: !Crosses(vs, k, o)
  }

  lemma OneMoreVisit(vs: seq<Visit>, v: Visit, o: Options)
    ensures Walked(Start, vs + [v], o) == Step(Walked(Start, vs, o), v, o)
    ensures forall k: nat :: k < |vs| ==> (Crosses(vs + [v], k, o) <==> Crosses(vs, k, o))
  {
    WalkedInTwo(Start, vs, [v], o);
    assert Walked(Walked(Start, vs, o), [v], o) == Step(Walked(Start, vs, o), v, o) by {
      assert [v][1..] == [];
    }
    forall k: nat | k < |vs|
      ensures Crosses(vs + [v], k, o) <==> Crosses(vs, k, o)
    {
      assert (vs + [v])[..k] == vs[..k];
    }
  }

  ghost predicate PathsNamed(vs: seq<Visit>) {
    forall k :: 0 <= k < |vs| ==> vs[k].path != []
  }

  /** Totals and the two lists do not depend on where the limit was passed. */
  lemma {:induction false} WalkMeasuresAll(vs: seq<Visit>, o: Options)
    ensures var end := Walked(Start, vs, o);
            end.total == TotalOf(vs, o) && end.skipped == SkipsOf(vs, o) && end.binds == BindsOf(vs)
    decreases |vs|
  {
    if vs != [] {
      var n := |vs| - 1;
      WalkMeasuresAll(vs[..n], o);
      assert vs == vs[..n] + [vs[n]];
      OneMoreVisit(vs[..n], vs[n], o);
    }
  }

  /** The walk refuses at the first visit that does not fit, and only then. */
  lemma {:induction false} WalkRefusesAtTheFirst(vs: seq<Visit>, o: Options)
    requires PathsNamed(vs)
    ensures var end := Walked(Start, vs, o);
            && (end.overAt == [] <==> Fits(vs, o))
            && (end.overAt != [] ==> exists k: nat :: FirstCrossing(vs, k, o) && end.overAt == vs[k].path)
    decreases |vs|
  {
    if vs != [] {
      var n := |vs| - 1;
      var past := vs[..n];
      WalkRefusesAtTheFirst(past, o);
      WalkMeasuresAll(past, o);
      assert vs == past + [vs[n]];
      OneMoreVisit(past, vs[n], o);
      if Walked(Start, past, o).overAt != [] {
        var k: nat :| FirstCrossing(past, k, o) && Walked(Start, past, o).overAt == past[k].path;
        assert FirstCrossing(vs, k, o);
      } else if Crosses(vs, n, o) {
        assert FirstCrossing(vs, n, o);
      }
    }
  }

  lemma FitsBefore(past: seq<Visit>, v: Visit, o: Options)
    requires PathsNamed(past + [v]) && Fits(past + [v], o)
    ensures Fits(past, o)
    ensures var s := Walked(Start, past, o);
            Step(s, v, o).files == if Counted(v, o) then s.files[v.path := v.file] else s.files
  {
    assert (past + [v])[|past|] == v;
    assert (past + [v])[..|past|] == past;
    assert forall k :: 0 <= k < |past| ==> past[k] == (past + [v])[k];
    OneMoreVisit(past, v, o);
    WalkRefusesAtTheFirst(past, o);
    WalkMeasuresAll(past, o);
    assert !Crosses(past + [v], |past|, o);
  }

  /** What is kept while everything fits: exactly the files that belong. */
  lemma {:induction false} WalkKeepsTheCounted(vs: seq<Visit>, o: Options, p: Path, f: Node)
    requires PathsNamed(vs) && PathsDistinct(vs) && Fits(vs, o)
    ensures var files := Walked(Start, vs, o).files;
            p in files && files[p] == f <==> FileAt(p, f) in vs && Counted(FileAt(p, f), o)
    decreases |vs|
  {
    if vs != [] {
      var n := |vs| - 1;
      var past := vs[..n];
      assert vs == past + [vs[n]];
      FitsBefore(past, vs[n], o);
      WalkKeepsTheCounted(past, o, p, f);
      OneMoreVisit(past, vs[n], o);
      assert FileAt(p, f) in vs <==> FileAt(p, f) in past || FileAt(p, f) == vs[n];
      assert FileAt(p, f) in past ==> p != vs[n].path;
    }
  }

  lemma VisitsNamed(d: Node, at: Path, i: nat, o: Options)
    requires d.Dir? && i <= |d.entries|
    ensures PathsNamed(Visits(d, at, i, o))
  {
    var vs := Visits(d, at, i, o);
    forall k | 0 <= k < |vs|
      ensures vs[k].path != []
    {
      assert vs[k] in vs;
      VisitsReached(d, at, i, o, vs[k]);
    }
  }

  /** f, met at skip's path, is a file that skip says was left out. */
  predicate LeftOut(skip: Skip, f: Node, o: Options) {
    Opened(FileAt(skip.path, f), o) && !Counted(FileAt(skip.path, f), o) && f.length == skip.size
  }

  lemma {:induction false} SkipsListed(vs: seq<Visit>, o: Options, skip: Skip)
    ensures skip in SkipsOf(vs, o) <==> exists f :: FileAt(skip.path, f) in vs && LeftOut(skip, f, o)
    decreases |vs|
  {
    if vs != [] {
      var n := |vs| - 1;
      var v := vs[n];
      SkipsListed(vs[..n], o, skip);
      assert vs == vs[..n] + [v];
      assert forall f :: FileAt(skip.path, f) in vs <==> FileAt(skip.path, f) in vs[..n] || FileAt(skip.path, f) == v;
      if v.FileAt? {
        assert v == FileAt(v.path, v.file);
      }
    }
  }

  lemma {:induction false} BindsListed(vs: seq<Visit>, p: Path)
    ensures p in BindsOf(vs) <==> exists dir :: BoundAt(p, dir) in vs
    decreases |vs|
  {
    if vs != [] {
      var n := |vs| - 1;
      BindsListed(vs[..n], p);
      assert vs == vs[..n] + [vs[n]];
      if vs[n].BoundAt? {
        assert vs[n] == BoundAt(vs[n].path, vs[n].dir);
      }
    }
  }

  /** v is met somewhere in the tree, with no pruned or bound directory above. */
  ghost predicate Met(root: Node, o: Options, v: Visit)
    requires root.Dir?
  {
    exists k :: Through(root, [], k, o, v)
  }

  ghost predicate KeepsExactly(root: Node, o: Options, files: map<Path, Node>)
    requires root.Dir?
  {
    forall p, f :: (p in files && files[p] == f) <==> (Met(root, o, FileAt(p, f)) && Counted(FileAt(p, f), o))
  }

  ghost predicate SkipsExactly(root: Node, o: Options, skipped: seq<Skip>)
    requires root.Dir?
  {
    forall skip :: skip in skipped <==> exists f :: Met(root, o, FileAt(skip.path, f)) && LeftOut(skip, f, o)
  }

  ghost predicate BindsExactly(root: Node, o: Options, binds: seq<Path>)
    requires root.Dir?
  {
    forall p :: p in binds <==> exists dir :: Met(root, o, BoundAt(p, dir))
  }

  lemma SkipsAreExact(root: Node, o: Options)
    requires root.Dir?
    ensures SkipsExactly(root, o, SkipsOf(Visits(root, [], 0, o), o))
  {
    var vs := Visits(root, [], 0, o);
    forall skip
      ensures skip in SkipsOf(vs, o) <==> exists f :: Met(root, o, FileAt(skip.path, f)) && LeftOut(skip, f, o)
    {
      SkipsListed(vs, o, skip);
      forall f
        ensures FileAt(skip.path, f) in vs <==> Met(root, o, FileAt(skip.path, f))
      {
        VisitsReached(root, [], 0, o, FileAt(skip.path, f));
      }
    }
  }

  lemma BindsAreExact(root: Node, o: Options)
    requires root.Dir?
    ensures BindsExactly(root, o, BindsOf(Visits(root, [], 0, o)))
  {
    forall p
      ensures p in BindsOf(Visits(root, [], 0, o)) <==> exists dir :: Met(root, o, BoundAt(p, dir))
    {
      BindsListed(Visits(root, [], 0, o), p);
      forall dir
        ensures BoundAt(p, dir) in Visits(root, [], 0, o) <==> Met(root, o, BoundAt(p, dir))
      {
        VisitsReached(root, [], 0, o, BoundAt(p, dir));
      }
    }
  }

  /** A loaded seed holds exactly the files that belong and can be met, and lists
      exactly the others that were opened and the directories that were bound. */
  lemma LoadedSeedIsExact(root: Node, o: Options)
    requires root.Dir? && WellNamed(root) && SeedOf(root, o).Loaded?
    ensures var seed := SeedOf(root, o);
            && KeepsExactly(root, o, seed.files)
            && SkipsExactly(root, o, seed.skipped)
            && BindsExactly(root, o, seed.binds)
  {
    var vs := Visits(root, [], 0, o);
    var seed := SeedOf(root, o);
    VisitsNamed(root, [], 0, o);
    VisitsDistinct(root, [], 0, o);
    WalkMeasuresAll(vs, o);
    WalkRefusesAtTheFirst(vs, o);
    SkipsAreExact(root, o);
    BindsAreExact(root, o);
    forall p, f
      ensures (p in seed.files && seed.files[p] == f) <==> (Met(root, o, FileAt(p, f)) && Counted(FileAt(p, f), o))
    {
      WalkKeepsTheCounted(vs, o, p, f);
      VisitsReached(root, [], 0, o, FileAt(p, f));
    }
  }

  /** No file that belongs changes size under the walk. */
  ghost predicate Stable(vs: seq<Visit>, o: Options) {
    forall k :: 0 <= k < |vs| && Counted(vs[k], o) ==> vs[k].file.statSize == vs[k].file.length
  }

  /** The running total first passes the limit with the k-th visit. */
  ghost predicate PassedAt(vs: seq<Visit>, k: nat, o: Options) {
    k < |vs| && TotalOf(vs[..k], o) <= o.seedLimit < TotalOf(vs[..k + 1], o)
  }

  lemma {:induction false} TotalGrows(vs: seq<Visit>, k: nat, o: Options)
    requires k <= |vs|
    ensures TotalOf(vs[..k], o) <= TotalOf(vs, o)
    decreases |vs|
  {
    if k == |vs| {
      assert vs[..k] == vs;
    } else {
      assert vs[..|vs| - 1][..k] == vs[..k];
      TotalGrows(vs[..|vs| - 1], k, o);
    }
  }

  /** The first total over the limit, when the whole is over it. */
  lemma {:induction false} SomethingPasses(vs: seq<Visit>, o: Options) returns (k: nat)
    requires 0 <= o.seedLimit < TotalOf(vs, o)
    ensures PassedAt(vs, k, o)
    decreases |vs|
  {
    var n := |vs| - 1;
    if o.seedLimit < TotalOf(vs[..n], o) {
      k := SomethingPasses(vs[..n], o);
      assert vs[..n][..k] == vs[..k] && vs[..n][..k + 1] == vs[..k + 1];
    } else {
      k := n;
      assert vs[..k + 1] == vs;
    }
  }

  lemma StableCrossing(vs: seq<Visit>, k: nat, o: Options)
    requires Stable(vs, o) && k < |vs|
    ensures Crosses(vs, k, o) <==> Counted(vs[k], o) && TotalOf(vs[..k + 1], o) > o.seedLimit
  {
    assert vs[..k + 1][..k] == vs[..k];
  }

  /** With stable files the first visit that does not fit is where the running
      total passes the limit. */
  lemma FirstCrossingPasses(vs: seq<Visit>, k: nat, o: Options)
    requires Stable(vs, o) && FirstCrossing(vs, k, o) && o.seedLimit > 0
    ensures PassedAt(vs, k, o) && TotalOf(vs, o) > o.seedLimit
  {
    StableCrossing(vs, k, o);
    TotalGrows(vs, k + 1, o);
    if TotalOf(vs[..k], o) > o.seedLimit {
      var j := SomethingPasses(vs[..k], o);
      assert vs[..k][..j] == vs[..j] && vs[..k][..j + 1] == vs[..j + 1];
      PassingCrosses(vs, j, o);
    }
  }

  /** A total over the limit leaves something that does not fit. */
  lemma OverLimitCrosses(vs: seq<Visit>, o: Options)
    requires 0 <= o.seedLimit < TotalOf(vs, o)
    ensures !Fits(vs, o)
  {
    var k := SomethingPasses(vs, o);
    PassingCrosses(vs, k, o);
  }

  /** With stable files the tree is refused exactly when what belongs in the seed
      is larger than the limit; the refusal names that whole size, though the walk
      stopped keeping part way, and the file that passed the limit. */
  lemma StableTreeRefusal(root: Node, o: Options)
    requires root.Dir? && (o.noFiles || o.seedLimit > 0)
    requires Stable(Visits(root, [], 0, o), o)
    ensures var vs, seed := Visits(root, [], 0, o), SeedOf(root, o);
            && (seed.TooLarge? <==> !o.noFiles && TotalOf(vs, o) > o.seedLimit)
            && (seed.TooLarge? ==>
                  seed.total == TotalOf(vs, o) &&
                  exists k: nat :: PassedAt(vs, k, o) && seed.overAt == vs[k].path)
  {
    var vs, seed := Visits(root, [], 0, o), SeedOf(root, o);
    VisitsNamed(root, [], 0, o);
    WalkMeasuresAll(vs, o);
    WalkRefusesAtTheFirst(vs, o);
    if o.noFiles {
      NothingCounted(vs, o);
    } else if seed.TooLarge? {
      var k: nat :| FirstCrossing(vs, k, o) && seed.overAt == vs[k].path;
      FirstCrossingPasses(vs, k, o);
    } else if TotalOf(vs, o) > o.seedLimit {
      OverLimitCrosses(vs, o);
    }
  }

  /** A loaded seed is within the limit, whether or not its files held still. */
  lemma LoadedSeedFits(root: Node, o: Options)
    requires root.Dir? && !o.noFiles && SeedOf(root, o).Loaded?
    ensures TotalOf(Visits(root, [], 0, o), o) <= o.seedLimit
  {
    var vs := Visits(root, [], 0, o);
    VisitsNamed(root, [], 0, o);
    WalkRefusesAtTheFirst(vs, o);
    if TotalOf(vs, o) > o.seedLimit {
      OverLimitCrosses(vs, o);
    }
  }

  lemma PassingCrosses(vs: seq<Visit>, k: nat, o: Options)
    requires PassedAt(vs, k, o)
    ensures Crosses(vs, k, o)
  {
    assert vs[..k + 1][..k] == vs[..k];
  }

  lemma {:induction false} NothingCounted(vs: seq<Visit>, o: Options)
    requires o.noFiles
    ensures TotalOf(vs, o) == 0 && Fits(vs, o)
    decreases |vs|
  {
    if vs != [] {
      NothingCounted(vs[..|vs| - 1], o);
    }
  }

  /** A seed asked for without files is never refused, whatever the limit: nothing
      is kept and nothing skipped. */
  lemma NoFilesAlwaysLoads(root: Node, o: Options)
    requires root.Dir? && o.noFiles
    ensures var seed := SeedOf(root, o);
            seed.Loaded? && seed.files == map[] && seed.skipped == []
  {
    NothingKept(Start, Visits(root, [], 0, o), o);
  }

  lemma {:induction false} NothingKept(s: Progress, vs: seq<Visit>, o: Options)
    requires o.noFiles
    ensures var end := Walked(s, vs, o);
            end.files == s.files && end.skipped == s.skipped && end.overAt == s.overAt
    decreases |vs|
  {
    if vs != [] {
      NothingKept(Step(s, vs[0], o), vs[1..], o);
    }
  }

  /** Without that the limit alone does not decide: a file that shrank after its
      size was read gets a tree refused whose text fits. */
  lemma ShrunkFileIsRefused()
    ensures exists root: Node, o: Options :: root.Dir? && WellNamed(root) && o.seedLimit > 0 &&
              TotalOf(Visits(root, [], 0, o), o) <= o.seedLimit && SeedOf(root, o) == TooLarge(1, ["log.txt"])
  {
    var f := File("log.txt", true, false, 10, 1, true, false);
    var root := Dir("repo", true, [f]);
    var o := Options("bwrap", {}, {}, false, false, 5);
    var v := FileAt([] + ["log.txt"], f);
    assert VisitEntry(root, [], 0, o) == [v];
    assert Visits(root, [], 1, o) == [];
    assert Visits(root, [], 0, o) == [v];
    assert [v][..0] == [] && [v][1..] == [];
    assert TotalOf([v][..0], o) == 0;
    assert TotalOf([v], o) == 1;
    assert Walked(Start, [v], o) == Walked(Step(Start, v, o), [], o);
    assert Step(Start, v, o) == Progress(map[], [], [], 1, ["log.txt"]);
    assert SeedOf(root, o) == TooLarge(1, ["log.txt"]);
  }

  /** What decides in general: some file that belongs does not fit by the larger
      of its two sizes, after everything before it. */
  lemma RefusedExactlyWhenSomethingCrosses(root: Node, o: Options)
    requires root.Dir? && (o.noFiles || o.seedLimit > 0)
    ensures SeedOf(root, o).TooLarge? <==> !Fits(Visits(root, [], 0, o), o)
    ensures SeedOf(root, o).TooLarge? ==>
              SeedOf(root, o).total == TotalOf(Visits(root, [], 0, o), o)
  {
    VisitsNamed(root, [], 0, o);
    WalkRefusesAtTheFirst(Visits(root, [], 0, o), o);
    WalkMeasuresAll(Visits(root, [], 0, o), o);
  }

  /** The visits do not depend on the limit. */
  lemma {:induction false} LimitDoesNotSteer(d: Node, at: Path, i: nat, o: Options, limit: int)
    requires d.Dir? && i <= |d.entries|
    ensures Visits(d, at, i, o.(seedLimit := limit)) == Visits(d, at, i, o)
    decreases d, |d.entries| - i
  {
    if i < |d.entries| {
      var n := d.entries[i];
      if n.Dir? {
        LimitDoesNotSteer(n, at + [n.name], 0, o, limit);
      }
      LimitDoesNotSteer(d, at, i + 1, o, limit);
    }
  }

  lemma {:induction false} LimitDoesNotMeasure(vs: seq<Visit>, o: Options, limit: int)
    ensures TotalOf(vs, o.(seedLimit := limit)) == TotalOf(vs, o)
    ensures SkipsOf(vs, o.(seedLimit := limit)) == SkipsOf(vs, o)
    decreases |vs|
  {
    if vs != [] {
      LimitDoesNotMeasure(vs[..|vs| - 1], o, limit);
    }
  }

  /** Keeping and only measuring classify and total alike: the walks of one tree
      under any two limits end with the same total, left-out files and binds. */
  lemma KeepingAndMeasuringAgree(root: Node, o: Options, limit: int)
    requires root.Dir?
    ensures var o' := o.(seedLimit := limit);
            var a, b := Walked(Start, Visits(root, [], 0, o), o), Walked(Start, Visits(root, [], 0, o'), o');
            a.total == b.total && a.skipped == b.skipped && a.binds == b.binds
  {
    var vs := Visits(root, [], 0, o);
    LimitDoesNotSteer(root, [], 0, o, limit);
    LimitDoesNotMeasure(vs, o, limit);
    WalkMeasuresAll(vs, o);
    WalkMeasuresAll(vs, o.(seedLimit := limit));
  }

  /** In plain terms, a loaded seed holds exactly the files met that are no links
      and not named .git, when files are read at all, and are text or lie under
      testdata or in a test tree. */
  lemma SeedHoldsTextAndFixtures(root: Node, o: Options, p: Path, f: Node)
    requires root.Dir? && WellNamed(root) && SeedOf(root, o).Loaded?
    ensures p in SeedOf(root, o).files && SeedOf(root, o).files[p] == f <==>
            && Met(root, o, FileAt(p, f))
            && f.File? && !f.symlink && f.name != ".git" && !o.noFiles
            && (f.isText || "testdata" in p || f.inTestTree)
  {
    LoadedSeedIsExact(root, o);
  }

  /** Every directory a loaded seed binds may be bound: it is a dependency directory
      by name or by request, under a backend that can mount it, which for a container
      means it is world-readable; and with binding turned off there is none. */
  lemma BindsMayBind(root: Node, o: Options, p: Path)
    requires root.Dir? && WellNamed(root) && SeedOf(root, o).Loaded? && p in SeedOf(root, o).binds
    ensures exists dir :: Met(root, o, BoundAt(p, dir)) && MayBind(p, dir, o)
    ensures !o.noBindDeps && (o.backend == "bwrap" || o.backend == "container")
  {
    LoadedSeedIsExact(root, o);
    var dir :| Met(root, o, BoundAt(p, dir));
    var k :| Through(root, [], k, o, BoundAt(p, dir));
    BoundMayBind(root, [], k, o, BoundAt(p, dir));
  }
}
