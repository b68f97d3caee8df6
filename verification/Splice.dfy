/** Writing a generated block between two markers of a document (splice): the
    text is found by the markers' first occurrences, as the source finds it. */
module Splice {
  import opened Common

  predicate Occurs(t: string, m: string, i: int) {
    0 <= i && i + |m| <= |t| && t[i..i + |m|] == m
  }

  /** Python's index: the first occurrence at or after i. */
  function FindFrom(t: string, m: string, i: nat): (r: Option<nat>)
    requires i <= |t|
    ensures r.Some? ==> i <= r.value && Occurs(t, m, r.value) && forall j :: i <= j < r.value ==> !Occurs(t, m, j)
    ensures r.None? ==> forall j :: i <= j ==> !Occurs(t, m, j)
    decreases |t| - i
  {
    if Occurs(t, m, i) then Some(i)
    else if i == |t| then None
    else FindFrom(t, m, i + 1)
  }

  function Find(t: string, m: string): Option<nat> {
    FindFrom(t, m, 0)
  }

  /** What Find returns, without computing it: i is where m first occurs. */
  ghost predicate First(t: string, m: string, i: int) {
    Occurs(t, m, i) && forall j :: 0 <= j < i ==> !Occurs(t, m, j)
  }

  lemma FirstIsFound(t: string, m: string, i: nat)
    requires First(t, m, i)
    ensures Find(t, m) == Some(i)
  {
    var r := Find(t, m);
    assert r.Some?;
    assert !(r.value < i) && !(i < r.value);
  }

  /** The splice of a prepared body; None where a marker is missing, the
      source's ValueError. The end is looked for from the top of the text, not
      from the start marker on. */
  function SpliceBody(t: string, start: string, end: string, body: string): (r: Option<string>)
    ensures r.None? <==> (forall i :: !Occurs(t, start, i)) || (forall i :: !Occurs(t, end, i))
  {
    match (Find(t, start), Find(t, end))
    case (Some(i), Some(e)) => Some(t[..i] + body + t[e + |end|..])
    case _ => None
  }

  // ---- Marker shapes ----

  /** c stands in m at its head and nowhere else. */
  predicate HeadedBy(m: string, c: char) {
    |m| > 0 && m[0] == c && forall k :: 0 < k < |m| ==> m[k] != c
  }

  /** A pair of markers that cannot overlap each other or themselves. */
  predicate Fence(start: string, end: string) {
    |start| > 0 && HeadedBy(start, start[0]) && HeadedBy(end, start[0])
    && exists k :: 0 <= k < |start| && k < |end| && start[k] != end[k]
  }

  /** The block carries each marker once, the start as prefix and the end as suffix. */
  ghost predicate Fenced(body: string, start: string, end: string) {
    && First(body, start, 0)
    && |end| <= |body| && First(body, end, |body| - |end|)
  }

  // ---- Finding the markers again after a splice ----

  /** A marker is not found across the seam before a fenced body: its first
      occurrence in the whole is its first in the body. */
  lemma FirstAfterSeam(a: string, body: string, b: string, m: string, f: nat)
    requires |body| > 0 && HeadedBy(m, body[0]) && First(body, m, f)
    requires forall j :: 0 <= j ==> !Occurs(a, m, j)
    ensures First(a + body + b, m, |a| + f)
  {
    var t := a + body + b;
    assert t[|a| + f..|a| + f + |m|] == body[f..f + |m|];
    forall q | 0 <= q < |a| + f ensures !Occurs(t, m, q) {
      if q + |m| <= |a| {
        assert !Occurs(a, m, q);
        assert t[q..q + |m|] == a[q..q + |m|];
      } else if q < |a| {
        Mismatch(t, m, q, |a| - q);
      } else {
        assert !Occurs(body, m, q - |a|);
        assert t[q..q + |m|] == body[q - |a|..q - |a| + |m|];
      }
    }
  }

  lemma Mismatch(t: string, m: string, q: nat, k: nat)
    requires k < |m| && (q + k < |t| ==> t[q + k] != m[k])
    ensures !Occurs(t, m, q)
  {
    assert q + |m| <= |t| ==> t[q..q + |m|][k] == t[q + k];
  }

  lemma AbsentBefore(t: string, m: string, n: nat, i: nat)
    requires |m| > 0 && i <= |t| && First(t, m, n) && i <= n
    ensures forall j :: 0 <= j ==> !Occurs(t[..i], m, j)
  {
    forall j | 0 <= j ensures !Occurs(t[..i], m, j) {
      if j + |m| <= i {
        assert !Occurs(t, m, j);
        assert t[..i][j..j + |m|] == t[j..j + |m|];
      }
    }
  }

  /** Where the markers are in a document that has both. */
  ghost predicate MarkersAt(t: string, start: string, end: string, i: nat, e: nat) {
    First(t, start, i) && First(t, end, e)
  }

  /** The markers never overlap, whichever comes first. */
  lemma MarkersApart(t: string, start: string, end: string, i: nat, e: nat)
    requires Fence(start, end) && MarkersAt(t, start, end, i, e)
    ensures i + |start| <= e || e + |end| <= i
  {
    HeadsOnly(t, start, i, start[0]);
    HeadsOnly(t, end, e, start[0]);
    var k :| 0 <= k < |start| && k < |end| && start[k] != end[k];
    assert t[i..i + |start|][k] == t[i + k];
    assert t[e..e + |end|][k] == t[e + k];
  }

  lemma HeadsOnly(t: string, m: string, i: nat, c: char)
    requires HeadedBy(m, c) && Occurs(t, m, i)
    ensures t[i] == c && forall q :: i < q < i + |m| ==> t[q] != c
  {
    assert t[i..i + |m|][0] == t[i];
    forall q | i < q < i + |m| ensures t[q] != c {
      assert t[i..i + |m|][q - i] == t[q];
    }
  }

  /** Start before end: a spliced document has its markers where the body put
      them. */
  lemma MarkersAfterSplice(t: string, start: string, end: string, body: string, i: nat, e: nat)
    requires Fence(start, end) && MarkersAt(t, start, end, i, e) && Fenced(body, start, end) && i < e
    ensures MarkersAt(t[..i] + body + t[e + |end|..], start, end, i, i + |body| - |end|)
  {
    assert body[0..|start|][0] == start[0];
    AbsentBefore(t, start, i, i);
    AbsentBefore(t, end, e, i);
    FirstAfterSeam(t[..i], body, t[e + |end|..], start, 0);
    FirstAfterSeam(t[..i], body, t[e + |end|..], end, |body| - |end|);
  }

  /** End before start: the old end marker, still ahead of the body, stays the
      first one. */
  lemma MarkersAfterBadSplice(t: string, start: string, end: string, body: string, i: nat, e: nat)
    requires Fence(start, end) && MarkersAt(t, start, end, i, e) && Fenced(body, start, end) && e < i
    ensures e + |end| <= i && MarkersAt(t[..i] + body + t[e + |end|..], start, end, i, e)
  {
    MarkersApart(t, start, end, i, e);
    assert body[0..|start|][0] == start[0];
    AbsentBefore(t, start, i, i);
    var t' := t[..i] + body + t[e + |end|..];
    FirstAfterSeam(t[..i], body, t[e + |end|..], start, 0);
    assert t'[e..e + |end|] == t[e..e + |end|];
    forall q | 0 <= q < e ensures !Occurs(t', end, q) {
      assert q + |end| <= i;
      assert t'[q..q + |end|] == t[q..q + |end|];
      assert !Occurs(t, end, q);
    }
  }

  // ---- The splice laws, for a prepared body ----

  lemma SplicedAt(t: string, start: string, end: string, body: string, i: nat, e: nat)
    requires MarkersAt(t, start, end, i, e)
    ensures SpliceBody(t, start, end, body) == Some(t[..i] + body + t[e + |end|..])
  {
    FirstIsFound(t, start, i);
    FirstIsFound(t, end, e);
  }

  /** Start first: the second splice finds the markers the first one wrote. */
  lemma SecondBodyReplacesFirst(t: string, start: string, end: string, b1: string, b2: string, i: nat, e: nat)
    requires Fence(start, end) && MarkersAt(t, start, end, i, e) && i < e
    requires Fenced(b1, start, end) && Fenced(b2, start, end)
    ensures SpliceBody(t[..i] + b1 + t[e + |end|..], start, end, b2) == Some(t[..i] + b2 + t[e + |end|..])
  {
    var t' := t[..i] + b1 + t[e + |end|..];
    MarkersAfterSplice(t, start, end, b1, i, e);
    SplicedAt(t', start, end, b2, i, i + |b1| - |end|);
    assert t'[..i] == t[..i];
    assert t'[i + |b1|..] == t[e + |end|..];
  }

  /** End first: the second splice finds the old markers, and keeps both bodies. */
  lemma SecondBodyFollowsFirst(t: string, start: string, end: string, b1: string, b2: string, i: nat, e: nat)
    requires Fence(start, end) && MarkersAt(t, start, end, i, e) && e < i
    requires Fenced(b1, start, end) && Fenced(b2, start, end)
    ensures var t' := t[..i] + b1 + t[e + |end|..];
            && |t| < |t'|
            && SpliceBody(t', start, end, b2).Some?
            && |t'| < |SpliceBody(t', start, end, b2).value|
            && |t[..i] + b2 + t[e + |end|..]| < |SpliceBody(t', start, end, b2).value|
  {
    MarkersApart(t, start, end, i, e);
    MarkersAfterBadSplice(t, start, end, b1, i, e);
    SplicedAt(t[..i] + b1 + t[e + |end|..], start, end, b2, i, e);
  }

  /** A second splice of a document wins completely over the first exactly when
      the start marker comes before the end marker; with the markers the other
      way round every splice leaves a longer document than the one it was given. */
  lemma LaterBodyWins(t: string, start: string, end: string, b1: string, b2: string, i: nat, e: nat)
    requires Fence(start, end) && MarkersAt(t, start, end, i, e)
    requires Fenced(b1, start, end) && Fenced(b2, start, end)
    ensures var first := SpliceBody(t, start, end, b1);
            && first.Some?
            && var second := SpliceBody(first.value, start, end, b2);
               && second.Some? && (second == SpliceBody(t, start, end, b2) <==> i < e)
               && (e < i ==> |t| < |first.value| < |second.value|)
  {
    SplicedAt(t, start, end, b1, i, e);
    SplicedAt(t, start, end, b2, i, e);
    MarkersApart(t, start, end, i, e);
    if i < e {
      SecondBodyReplacesFirst(t, start, end, b1, b2, i, e);
    } else {
      SecondBodyFollowsFirst(t, start, end, b1, b2, i, e);
    }
  }

  // ---- The two documents ----

  const MdStart := "<!-- before-after:start -->"
  const MdEnd := "<!-- before-after:end -->"
  const MdxStart := "{/* before-after:start */}"
  const MdxEnd := "{/* before-after:end */}"

  datatype Kind = Markdown | Mdx

  function StartOf(kind: Kind): string {
    if kind.Mdx? then MdxStart else MdStart
  }

  function EndOf(kind: Kind): string {
    if kind.Mdx? then MdxEnd else MdEnd
  }

  /** rstrip("\n") */
  function StripNewlines(s: string): string {
    if s != [] && s[|s| - 1] == '\n' then StripNewlines(s[..|s| - 1]) else s
  }

  /** Python's replace: every occurrence from the left, not overlapping. */
  function Replace(s: string, was: string, now: string): string
    requires |was| > 0
  {
    if |s| < |was| then s
    else if s[..|was|] == was then now + Replace(s[|was|..], was, now)
    else [s[0]] + Replace(s[1..], was, now)
  }

  /** The body a document gets: the block without its last newlines, its markers
      respelled for a document that refuses HTML comments. */
  function Prepare(kind: Kind, block: string): string {
    var body := StripNewlines(block);
    if kind.Mdx? then Replace(Replace(body, MdStart, MdxStart), MdEnd, MdxEnd) else body
  }

  function Splice(kind: Kind, t: string, block: string): Option<string> {
    SpliceBody(t, StartOf(kind), EndOf(kind), Prepare(kind, block))
  }

  /** What render returns around its rows. */
  function Block(rows: string): string {
    MdStart + rows + MdEnd + "\n"
  }

  ghost predicate MdFree(rows: string) {
    forall i :: !Occurs(rows, MdStart, i) && !Occurs(rows, MdEnd, i)
  }

  /** The rows mention no marker, nor, for a document that respells the markers, one
      of its own. */
  ghost predicate MarkerFree(kind: Kind, rows: string) {
    && MdFree(rows)
    && (kind.Mdx? ==> forall i :: !Occurs(rows, MdxStart, i) && !Occurs(rows, MdxEnd, i))
  }

  lemma MdIsFence()
    ensures Fence(MdStart, MdEnd) && MdStart[0] == '<'
  {
    assert MdStart[18] == 's' && MdEnd[18] == 'e';
  }

  lemma MdxIsFence()
    ensures Fence(MdxStart, MdxEnd) && MdxStart[0] == '{'
  {
    assert MdxStart[17] == 's' && MdxEnd[17] == 'e';
  }

  // ---- What Prepare makes of a block ----

  ghost predicate Absent(t: string, m: string) {
    forall i :: !Occurs(t, m, i)
  }

  /** What occurs in the rest occurs one later in the whole. */
  lemma OccursNext(s: string, m: string, i: int)
    requires |s| > 0
    ensures Occurs(s[1..], m, i) <==> 0 <= i && Occurs(s, m, i + 1)
  {
    if 0 <= i && i + |m| <= |s| - 1 {
      assert s[1..][i..i + |m|] == s[i + 1..i + 1 + |m|];
    }
  }

  lemma {:induction false} ReplaceAbsent(s: string, was: string, now: string)
    requires |was| > 0 && Absent(s, was)
    ensures Replace(s, was, now) == s
  {
    if |s| >= |was| {
      assert !Occurs(s, was, 0);
      forall i ensures !Occurs(s[1..], was, i) {
        OccursNext(s, was, i);
      }
      ReplaceAbsent(s[1..], was, now);
    }
  }

  lemma FirstShift(a: string, m: string)
    requires |m| > 0 && |a| > 0 && First(a + m, m, |a|)
    ensures First(a[1..] + m, m, |a| - 1)
  {
    var s, rest := a + m, a[1..] + m;
    assert rest == s[1..];
    OccursNext(s, m, |a| - 1);
    forall j | 0 <= j < |a| - 1 ensures !Occurs(rest, m, j) {
      OccursNext(s, m, j);
    }
  }

  lemma ReplaceSkips(s: string, was: string, now: string)
    requires 0 < |was| <= |s| && !Occurs(s, was, 0)
    ensures Replace(s, was, now) == [s[0]] + Replace(s[1..], was, now)
  {
    assert s[..|was|] == s[0..0 + |was|];
  }

  lemma ReplaceWhole(was: string, now: string)
    requires |was| > 0
    ensures Replace(was, was, now) == now
  {
    assert was[..|was|] == was && was[|was|..] == [];
    assert Replace([], was, now) == [];
    assert now + [] == now;
  }

  lemma {:induction false} ReplaceTail(a: string, was: string, now: string)
    requires |was| > 0 && First(a + was, was, |a|)
    ensures Replace(a + was, was, now) == a + now
  {
    var s := a + was;
    if a == [] {
      ReplaceWhole(was, now);
      assert s == was && a + now == now;
    } else {
      var rest := a[1..] + was;
      assert s[1..] == rest && s[0] == a[0];
      FirstShift(a, was);
      ReplaceTail(a[1..], was, now);
      ReplaceSkips(s, was, now);
      calc {
        Replace(s, was, now);
        [a[0]] + Replace(rest, was, now);
        [a[0]] + (a[1..] + now);
        a + now;
      }
    }
  }

  /** No marker is found across the seam before something its head stands at the
      front of, unless it starts there. */
  lemma AbsentUpToSeam(a: string, b: string, m: string)
    requires |b| > 0 && HeadedBy(m, b[0]) && Absent(a, m)
    ensures forall q :: 0 <= q < |a| ==> !Occurs(a + b, m, q)
  {
    forall q | 0 <= q < |a| ensures !Occurs(a + b, m, q) {
      if q + |m| <= |a| {
        assert !Occurs(a, m, q);
        assert (a + b)[q..q + |m|] == a[q..q + |m|];
      } else {
        Mismatch(a + b, m, q, |a| - q);
      }
    }
  }

  lemma AbsentAfter(p: string, a: string, m: string)
    requires |m| > 0 && m[0] !in p && Absent(a, m)
    ensures Absent(p + a, m)
  {
    forall q ensures !Occurs(p + a, m, q) {
      if 0 <= q < |p| {
        Mismatch(p + a, m, q, 0);
      } else if |p| <= q && q + |m| <= |p + a| {
        assert !Occurs(a, m, q - |p|);
        assert (p + a)[q..q + |m|] == a[q - |p|..q - |p| + |m|];
      }
    }
  }

  /** Before the last marker of a block there is no end marker. */
  lemma NoEndBefore(start: string, rows: string, end: string, q: nat)
    requires Fence(start, end) && Absent(rows, end) && q < |start| + |rows|
    ensures !Occurs(start + rows + end, end, q)
  {
    var body := start + rows + end;
    if q == 0 {
      var k :| 0 <= k < |start| && k < |end| && start[k] != end[k];
      assert body[k] == start[k];
      Mismatch(body, end, q, k);
    } else if q < |start| {
      assert body[q] == start[q];
      Mismatch(body, end, q, 0);
    } else {
      AbsentUpToSeam(rows, end, end);
      assert !Occurs(rows + end, end, q - |start|);
      assert body == start + (rows + end);
      assert q + |end| <= |body| ==> body[q..q + |end|] == (rows + end)[q - |start|..q - |start| + |end|];
    }
  }

  lemma BlockIsFenced(start: string, rows: string, end: string)
    requires Fence(start, end) && Absent(rows, start) && Absent(rows, end)
    ensures Fenced(start + rows + end, start, end)
  {
    var body := start + rows + end;
    assert body[..|start|] == start;
    assert body[|body| - |end|..] == end;
    forall q | 0 <= q < |body| - |end| ensures !Occurs(body, end, q) {
      NoEndBefore(start, rows, end, q);
    }
  }

  lemma KindsAreFences(kind: Kind)
    ensures Fence(StartOf(kind), EndOf(kind))
  {
    if kind.Mdx? { MdxIsFence(); } else { MdIsFence(); }
  }

  lemma Stripped(body: string)
    requires |body| > 0 && body[|body| - 1] != '\n'
    ensures StripNewlines(body + "\n") == body
  {
    assert (body + "\n")[..|body|] == body;
  }

  lemma PrepareBlock(kind: Kind, rows: string)
    requires kind.Mdx? ==> MdFree(rows)
    ensures Prepare(kind, Block(rows)) == StartOf(kind) + rows + EndOf(kind)
  {
    var body := MdStart + rows + MdEnd;
    assert body[|body| - 1] == MdEnd[|MdEnd| - 1] == '>';
    Stripped(body);
    if kind.Mdx? {
      Respelled(rows);
    }
  }

  lemma PreparedIsFenced(kind: Kind, rows: string)
    requires MarkerFree(kind, rows)
    ensures Fence(StartOf(kind), EndOf(kind))
    ensures Fenced(Prepare(kind, Block(rows)), StartOf(kind), EndOf(kind))
  {
    KindsAreFences(kind);
    PrepareBlock(kind, rows);
    assert Absent(rows, StartOf(kind)) && Absent(rows, EndOf(kind));
    BlockIsFenced(StartOf(kind), rows, EndOf(kind));
  }

  lemma Respelled(rows: string)
    requires MdFree(rows)
    ensures Replace(Replace(MdStart + rows + MdEnd, MdStart, MdxStart), MdEnd, MdxEnd) == MdxStart + rows + MdxEnd
  {
    MdIsFence();
    var body, tail := MdStart + rows + MdEnd, rows + MdEnd;
    assert body[..|MdStart|] == MdStart && body[|MdStart|..] == tail;
    AbsentUpToSeam(rows, MdEnd, MdStart);
    ReplaceAbsent(tail, MdStart, MdxStart);
    assert MdxStart + tail == (MdxStart + rows) + MdEnd;
    AbsentAfter(MdxStart, rows, MdEnd);
    AbsentUpToSeam(MdxStart + rows, MdEnd, MdEnd);
    ReplaceTail(MdxStart + rows, MdEnd, MdxEnd);
  }

  // ---- The splice laws, for rendered blocks ----

  /** Wherever the markers are, what is put there is the prepared block. */
  lemma SplicePuts(kind: Kind, t: string, block: string, body: string, i: nat, e: nat)
    requires MarkersAt(t, StartOf(kind), EndOf(kind), i, e) && Prepare(kind, block) == body
    ensures Splice(kind, t, block) == Some(t[..i] + body + t[e + |EndOf(kind)|..])
  {
    SplicedAt(t, StartOf(kind), EndOf(kind), body, i, e);
  }

  /** A splice leaves the text outside the markers alone and puts the new rows
      between them, whenever the start marker comes first; only respelling asks
      anything of the rows. */
  lemma SpliceKeepsOutside(kind: Kind, t: string, rows: string, i: nat, e: nat)
    requires MarkersAt(t, StartOf(kind), EndOf(kind), i, e) && i < e
    requires kind.Mdx? ==> MdFree(rows)
    ensures Splice(kind, t, Block(rows))
            == Some(t[..i] + (StartOf(kind) + rows + EndOf(kind)) + t[e + |EndOf(kind)|..])
  {
    PrepareBlock(kind, rows);
    SplicePuts(kind, t, Block(rows), StartOf(kind) + rows + EndOf(kind), i, e);
  }

  /** A later splice wins completely, and in particular splicing the same block
      again changes nothing, so a check right after a write passes: exactly when
      the document's start marker comes before its end marker. */
  lemma LaterSpliceWins(kind: Kind, t: string, rows1: string, rows2: string, i: nat, e: nat)
    requires MarkersAt(t, StartOf(kind), EndOf(kind), i, e) && MarkerFree(kind, rows1) && MarkerFree(kind, rows2)
    ensures var first := Splice(kind, t, Block(rows1));
            && first.Some?
            && (Splice(kind, first.value, Block(rows2)) == Splice(kind, t, Block(rows2)) <==> i < e)
            && (Splice(kind, first.value, Block(rows1)) == first <==> i < e)
            && (e < i ==> |t| < |first.value|)
  {
    PreparedIsFenced(kind, rows1);
    PreparedIsFenced(kind, rows2);
    var start, end := StartOf(kind), EndOf(kind);
    LaterBodyWins(t, start, end, Prepare(kind, Block(rows1)), Prepare(kind, Block(rows2)), i, e);
    LaterBodyWins(t, start, end, Prepare(kind, Block(rows1)), Prepare(kind, Block(rows1)), i, e);
  }

  /** A document with its markers the wrong way round. */
  const Reversed: string := MdEnd + MdStart

  /** Splicing it grows it, and splicing the result again grows that. */
  lemma ReversedGrows(rows: string)
    requires MarkerFree(Markdown, rows)
    ensures var once := Splice(Markdown, Reversed, Block(rows));
            && once.Some? && |Reversed| < |once.value|
            && Splice(Markdown, once.value, Block(rows)) != once
  {
    assert |MdEnd| < |MdStart|;
    assert Absent(MdEnd, MdStart);
    AbsentUpToSeam(MdEnd, MdStart, MdStart);
    assert Reversed[|MdEnd|..|MdEnd| + |MdStart|] == MdStart;
    assert Reversed[0..|MdEnd|] == MdEnd;
    assert MarkersAt(Reversed, MdStart, MdEnd, |MdEnd|, 0);
    LaterSpliceWins(Markdown, Reversed, rows, rows, |MdEnd|, 0);
  }
}
