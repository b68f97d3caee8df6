/** The brief's item bound (the take closure of buildBrief): how many items are
    listed across the report and where the rest are said to be. */
module BriefBound {
  import opened Common
  import opened Brief

  datatype Item =
    | Gap(path: string, mutant: Mutant)
    | Survivor(path: string, mutant: Mutant)
    | Standing(path: string, claim: Claim)

  function Gaps(p: string, ms: seq<Mutant>): (items: seq<Item>)
    ensures |items| == |ms| && forall k :: 0 <= k < |ms| ==> items[k] == Gap(p, ms[k])
  {
    seq(|ms|, k requires 0 <= k < |ms| => Gap(p, ms[k]))
  }

  function Survivors(p: string, ms: seq<Mutant>): (items: seq<Item>)
    ensures |items| == |ms| && forall k :: 0 <= k < |ms| ==> items[k] == Survivor(p, ms[k])
  {
    seq(|ms|, k requires 0 <= k < |ms| => Survivor(p, ms[k]))
  }

  function Standings(p: string, cs: seq<Claim>): (items: seq<Item>)
    ensures |items| == |cs| && forall k :: 0 <= k < |cs| ==> items[k] == Standing(p, cs[k])
  {
    seq(|cs|, k requires 0 <= k < |cs| => Standing(p, cs[k]))
  }

  function ItemsOf(bp: BriefPath): seq<Item> {
    Gaps(bp.path, bp.gaps) + Survivors(bp.path, bp.survivors) + Standings(bp.path, bp.findings)
  }

  /** The items of the report, in the order it lists them. */
  function Items(paths: seq<BriefPath>): seq<Item> {
    if paths == [] then [] else Items(paths[..|paths| - 1]) + ItemsOf(paths[|paths| - 1])
  }

  function Room(maxItems: int): nat { if maxItems < 0 then 0 else maxItems }

  function Min(a: nat, b: nat): nat { if a < b then a else b }

  /** The listed items: the first so many of all of them. */
  function Listed(items: seq<Item>, maxItems: int): seq<Item> {
    items[..Min(Room(maxItems), |items|)]
  }

  function Unlisted(items: seq<Item>, maxItems: int): seq<Item> {
    items[Min(Room(maxItems), |items|)..]
  }

  /** The path the cut names: the first one of the items that is not empty. */
  function FirstNamed(items: seq<Item>): string {
    if items == [] then "" else if items[0].path != "" then items[0].path else FirstNamed(items[1..])
  }

  lemma {:induction false} FirstNamedInTwo(a: seq<Item>, b: seq<Item>)
    ensures FirstNamed(a + b) == if FirstNamed(a) != "" then FirstNamed(a) else FirstNamed(b)
    decreases |a|
  {
    if a == [] {
      assert a + b == b;
    } else {
      assert (a + b)[1..] == a[1..] + b;
      FirstNamedInTwo(a[1..], b);
    }
  }

  lemma {:induction false} FirstNamedOfOne(items: seq<Item>, p: string)
    requires forall k :: 0 <= k < |items| ==> items[k].path == p
    ensures FirstNamed(items) == if items == [] then "" else p
    decreases |items|
  {
    if items != [] && p == "" {
      FirstNamedOfOne(items[1..], p);
    }
  }

  /** Everything but the lists, which are cut to a prefix. */
  predicate CutFrom(short: BriefPath, full: BriefPath) {
    && short.gaps <= full.gaps && short.survivors <= full.survivors && short.findings <= full.findings
    && short == full.(gaps := short.gaps, survivors := short.survivors, findings := short.findings)
  }

  predicate ListsAny(bp: BriefPath) {
    bp.gaps != [] || bp.survivors != [] || bp.findings != []
  }

  /** A path's survivors are listed only after all its gaps, and its findings only
      after both. */
  predicate GapsFirst(short: BriefPath, full: BriefPath) {
    && (short.survivors != [] || short.findings != [] ==> short.gaps == full.gaps)
    && (short.findings != [] ==> short.survivors == full.survivors)
  }

  /** And a path's items only after all of every path before it. */
  ghost predicate PathsInOrder(short: seq<BriefPath>, full: seq<BriefPath>) {
    && |short| == |full|
    && (forall i :: 0 <= i < |full| ==> GapsFirst(short[i], full[i]))
    && (forall i, j :: 0 <= i < j < |full| && ListsAny(short[j]) ==> short[i] == full[i])
  }

  lemma ShortItems(full: BriefPath, g: nat, s: nat, f: nat)
    requires g <= |full.gaps| && s <= |full.survivors| && f <= |full.findings|
    ensures ItemsOf(full.(gaps := full.gaps[..g], survivors := full.survivors[..s], findings := full.findings[..f])) ==
            Gaps(full.path, full.gaps)[..g] + Survivors(full.path, full.survivors)[..s] +
              Standings(full.path, full.findings)[..f]
  {
    assert Gaps(full.path, full.gaps[..g]) == Gaps(full.path, full.gaps)[..g];
    assert Survivors(full.path, full.survivors[..s]) == Survivors(full.path, full.survivors)[..s];
    assert Standings(full.path, full.findings[..f]) == Standings(full.path, full.findings)[..f];
  }

  lemma Regroup(a: seq<Item>, b: seq<Item>, c: seq<Item>, d: seq<Item>)
    ensures a + b + c + d == a + (b + c + d)
  {
  }

  class Taker {
    const maxItems: int
    var kept: nat
    var dropped: nat
    var firstCut: string

    constructor (maxItems: int)
      ensures this.maxItems == maxItems && kept == 0 && dropped == 0 && firstCut == ""
    {
      this.maxItems := maxItems;
      kept, dropped, firstCut := 0, 0, "";
    }

    /** The counters after these items. */
    predicate After(items: seq<Item>)
      reads this
    {
      && kept == |Listed(items, maxItems)|
      && dropped == |Unlisted(items, maxItems)|
      && firstCut == FirstNamed(Unlisted(items, maxItems))
    }

    method Take(have: nat, path: string, ghost past: seq<Item>, ghost section: seq<Item>) returns (n: nat)
      requires After(past)
      requires have == |section| && forall k :: 0 <= k < |section| ==> section[k].path == path
      modifies this
      ensures n <= have && After(past + section)
      ensures Listed(past + section, maxItems) == Listed(past, maxItems) + section[..n]
      ensures kept == old(kept) + n
      ensures n < have ==> kept >= Room(maxItems)
      ensures old(kept) >= Room(maxItems) ==> n == 0
    {
      var room: int := maxItems - kept;
      if room < 0 {
        room := 0;
      }
      ghost var all := past + section;
      if have <= room {
        if have == 0 {
          assert all == past;
        } else {
          assert Unlisted(all, maxItems) == [] && Unlisted(past, maxItems) == [];
        }
        assert section[..have] == section;
        kept := kept + have;
        return have;
      }
      assert Unlisted(all, maxItems) == Unlisted(past, maxItems) + section[room..];
      FirstNamedInTwo(Unlisted(past, maxItems), section[room..]);
      FirstNamedOfOne(section[room..], path);
      if firstCut == "" {
        firstCut := path;
      }
      kept := kept + room;
      dropped := dropped + (have - room);
      n := room;
    }

    method TakePath(full: BriefPath, ghost past: seq<Item>) returns (short: BriefPath)
      requires After(past)
      modifies this
      ensures CutFrom(short, full)
      ensures After(past + ItemsOf(full))
      ensures Listed(past + ItemsOf(full), maxItems) == Listed(past, maxItems) + ItemsOf(short)
      ensures GapsFirst(short, full)
      ensures old(kept) >= Room(maxItems) ==> !ListsAny(short)
      ensures kept < Room(maxItems) ==> short == full
    {
      var p := full.path;
      ghost var gaps, survivors, findings := Gaps(p, full.gaps), Survivors(p, full.survivors),
        Standings(p, full.findings);
      var g := Take(|full.gaps|, p, past, gaps);
      var s := Take(|full.survivors|, p, past + gaps, survivors);
      var f := Take(|full.findings|, p, past + gaps + survivors, findings);
      short := full.(gaps := full.gaps[..g], survivors := full.survivors[..s], findings := full.findings[..f]);
      ShortItems(full, g, s, f);
      Regroup(past, gaps, survivors, findings);
      Regroup(Listed(past, maxItems), gaps[..g], survivors[..s], findings[..f]);
    }
  }

  /** What is said of the items left out. */
  datatype Cut = Cut(dropped: nat, maxItems: int, from: string)

  ghost predicate EachCutFrom(short: seq<BriefPath>, full: seq<BriefPath>) {
    |short| == |full| && forall i :: 0 <= i < |full| ==> CutFrom(short[i], full[i])
  }

  function CutOf(rest: seq<Item>, maxItems: int): Option<Cut> {
    if rest == [] then None else Some(Cut(|rest|, maxItems, FirstNamed(rest)))
  }

  /** The bounded report against the whole one. */
  ghost predicate Bounded(short: seq<BriefPath>, cut: Option<Cut>, full: seq<BriefPath>, maxItems: int) {
    && EachCutFrom(short, full)
    && Items(short) == Listed(Items(full), maxItems)
    && cut == CutOf(Unlisted(Items(full), maxItems), maxItems)
  }

  lemma OneMorePath(paths: seq<BriefPath>, bp: BriefPath)
    ensures Items(paths + [bp]) == Items(paths) + ItemsOf(bp)
  {
    assert (paths + [bp])[..|paths|] == paths;
  }

  lemma OneMoreCutFrom(short: seq<BriefPath>, full: seq<BriefPath>, next: BriefPath, bp: BriefPath)
    requires EachCutFrom(short, full) && CutFrom(next, bp)
    ensures EachCutFrom(short + [next], full + [bp])
  {
  }

  lemma OneMoreInOrder(short: seq<BriefPath>, full: seq<BriefPath>, next: BriefPath, bp: BriefPath)
    requires PathsInOrder(short, full) && GapsFirst(next, bp)
    requires ListsAny(next) ==> short == full
    ensures PathsInOrder(short + [next], full + [bp])
  {
  }

  lemma PathsUpTo(full: seq<BriefPath>, i: nat)
    requires i < |full|
    ensures full[..i + 1] == full[..i] + [full[i]]
  {
  }

  method Bound(full: seq<BriefPath>, maxItems: int) returns (short: seq<BriefPath>, cut: Option<Cut>)
    ensures Bounded(short, cut, full, maxItems) && PathsInOrder(short, full)
  {
    var taker := new Taker(maxItems);
    short := [];
    ghost var items: seq<Item> := [];
    for i := 0 to |full|
      invariant taker.maxItems == maxItems && fresh(taker)
      invariant items == Items(full[..i])
      invariant EachCutFrom(short, full[..i])
      invariant taker.After(items)
      invariant Items(short) == Listed(items, maxItems)
      invariant PathsInOrder(short, full[..i])
      invariant taker.kept < Room(maxItems) ==> short == full[..i]
    {
      var next := taker.TakePath(full[i], items);
      PathsUpTo(full, i);
      OneMorePath(full[..i], full[i]);
      OneMorePath(short, next);
      OneMoreCutFrom(short, full[..i], next, full[i]);
      OneMoreInOrder(short, full[..i], next, full[i]);
      items := items + ItemsOf(full[i]);
      short := short + [next];
    }
    assert full[..|full|] == full;
    cut := if taker.dropped > 0 then Some(Cut(taker.dropped, maxItems, taker.firstCut)) else None;
  }

  /** Listed and left out make the whole; nothing is listed after the first item
      left out; what is left out is counted and is said to be so. */
  lemma BoundAddsUp(short: seq<BriefPath>, cut: Option<Cut>, full: seq<BriefPath>, maxItems: int)
    requires Bounded(short, cut, full, maxItems)
    ensures Items(short) <= Items(full) && |Items(short)| == Min(Room(maxItems), |Items(full)|)
    ensures cut.Some? <==> |Items(full)| > Room(maxItems)
    ensures cut.Some? ==> |Items(short)| + cut.value.dropped == |Items(full)|
  {
    assert Items(full) == Listed(Items(full), maxItems) + Unlisted(Items(full), maxItems);
  }

  lemma {:induction false} FirstNamedIsFirst(items: seq<Item>)
    requires items != []
    ensures FirstNamed(items) == items[0].path <==>
            items[0].path != "" || forall k :: 0 <= k < |items| ==> items[k].path == ""
  {
    if items[0].path == "" {
      EmptyNames(items);
    }
  }

  lemma {:induction false} EmptyNames(items: seq<Item>)
    ensures FirstNamed(items) == "" <==> forall k :: 0 <= k < |items| ==> items[k].path == ""
    decreases |items|
  {
    if items != [] {
      EmptyNames(items[1..]);
      assert forall k :: 1 <= k < |items| ==> items[k] == items[1..][k - 1];
    }
  }

  lemma FirstOfTheRest(items: seq<Item>, n: nat)
    requires n < |items|
    ensures FirstNamed(items[n..]) == items[n].path <==>
            items[n].path != "" || forall k :: n <= k < |items| ==> items[k].path == ""
  {
    var rest := items[n..];
    FirstNamedIsFirst(rest);
    assert forall k :: n <= k < |items| ==> items[k] == rest[k - n];
  }

  /** The cut names the path of the first item left out exactly when that path is
      not empty, or every item left out is on the empty path. */
  lemma CutNamesTheFirst(short: seq<BriefPath>, cut: Option<Cut>, full: seq<BriefPath>, maxItems: int)
    requires Bounded(short, cut, full, maxItems) && cut.Some?
    ensures var items, n := Items(full), Room(maxItems);
            cut.value.from == items[n].path <==>
            items[n].path != "" || forall k :: n <= k < |items| ==> items[k].path == ""
  {
    FirstOfTheRest(Items(full), Room(maxItems));
  }
}
