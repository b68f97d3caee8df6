/** Laying a mission's snapshot down on disk (untarGzInto): bounded, and never
    silently short. */
module Extract {
  /** mirrorCap: 256 << 20 */
  const MirrorCap: nat := 0x1000_0000

  /** One step of the archive reader: a header it cannot read, or an entry with
      its size and the faults the disk has in store for it. copyFailsAt is how
      many bytes are copied before an error, None for no error. */
  datatype Entry =
    | BadHeader
    | Dir(mkdirFails: bool)
    | File(size: nat, mkdirFails: bool, openFails: bool, copyFails: bool, copyFailsAt: nat)

  datatype Failure = ReadFailed | DiskFailed | CopyFailed | OverCap

  datatype End = Extracted | Failed(failure: Failure)

  predicate Sound(e: Entry) {
    match e
    case BadHeader => false
    case Dir(mkdirFails) => !mkdirFails
    case File(size, mkdirFails, openFails, copyFails, at) => !mkdirFails && !openFails && !(copyFails && at <= size)
  }

  function SizeOf(e: Entry): nat {
    if e.File? then e.size else 0
  }

  /** The bytes an archive holds. */
  function SizeOfAll(archive: seq<Entry>): nat {
    if archive == [] then 0 else SizeOfAll(archive[..|archive| - 1]) + SizeOf(archive[|archive| - 1])
  }

  /** The sizes of its files, in order. */
  function FileSizes(archive: seq<Entry>): seq<nat> {
    if archive == [] then []
    else
      var e := archive[|archive| - 1];
      FileSizes(archive[..|archive| - 1]) + if e.File? then [e.size] else []
  }

  function Sum(ns: seq<nat>): nat {
    if ns == [] then 0 else Sum(ns[..|ns| - 1]) + ns[|ns| - 1]
  }

  lemma SumAppend(ns: seq<nat>, n: nat)
    ensures Sum(ns + [n]) == Sum(ns) + n
  {
    assert (ns + [n])[..|ns|] == ns;
  }

  lemma {:induction false} PrefixNoLarger(archive: seq<Entry>, i: nat)
    requires i <= |archive|
    ensures SizeOfAll(archive[..i]) <= SizeOfAll(archive)
    decreases |archive|
  {
    if i < |archive| {
      var front := archive[..|archive| - 1];
      PrefixNoLarger(front, i);
      assert front[..i] == archive[..i];
    } else {
      assert archive[..i] == archive;
    }
  }

  /** What a failure at entry e leaves of it, after the files before it: nothing
      of an entry that cannot be read or opened, the bytes before the error of one
      that cannot be copied, and what still fits of one that is too large. */
  predicate StoppedAt(before: seq<nat>, e: Entry, failure: Failure, written: seq<nat>) {
    match failure
    case ReadFailed => e.BadHeader? && written == before
    case DiskFailed => ((e.Dir? && e.mkdirFails) || (e.File? && (e.mkdirFails || e.openFails))) && written == before
    case CopyFailed => e.File? && e.copyFails && e.copyFailsAt <= e.size && written == before + [e.copyFailsAt]
    case OverCap => e.File? && |written| == |before| + 1 && before <= written &&
                    Sum(written) == MirrorCap + 1 && written[|before|] <= e.size
  }

  /** written is the number of bytes put into each file opened, whole or not;
      stop is the entry a failure stopped at. */
  method UntarInto(archive: seq<Entry>) returns (end: End, written: seq<nat>, ghost stop: nat)
    ensures Sum(written) <= 256 * 1024 * 1024 + 1
    ensures end.Extracted? <==>
            (forall i :: 0 <= i < |archive| ==> Sound(archive[i])) && SizeOfAll(archive) <= 256 * 1024 * 1024
    ensures end.Extracted? ==> written == FileSizes(archive)
    ensures end == Failed(OverCap) ==> SizeOfAll(archive) > MirrorCap && Sum(written) == MirrorCap + 1
    ensures end.Failed? ==>
              && stop < |archive| && (forall j :: 0 <= j < stop ==> Sound(archive[j]))
              && StoppedAt(FileSizes(archive[..stop]), archive[stop], end.failure, written)
  {
    var total: nat := 0;
    written := [];
    stop := 0;
    var i := 0;
    while i < |archive|
      invariant 0 <= i <= |archive|
      invariant total == SizeOfAll(archive[..i]) == Sum(written) <= MirrorCap
      invariant written == FileSizes(archive[..i])
      invariant forall j :: 0 <= j < i ==> Sound(archive[j])
    {
      PrefixNoLarger(archive, i + 1);
      assert archive[..i + 1][..i] == archive[..i];
      stop := i;
      match archive[i] {
        case BadHeader => return Failed(ReadFailed), written, i;
        case Dir(mkdirFails) =>
          if mkdirFails {
            return Failed(DiskFailed), written, i;
          }
        case File(size, mkdirFails, openFails, copyFails, at) =>
          if mkdirFails || openFails {
            return Failed(DiskFailed), written, i;
          }
          var limit := MirrorCap - total + 1;
          var n := if size < limit then size else limit;
          if copyFails && at <= n {
            SumAppend(written, at);
            return Failed(CopyFailed), written + [at], i;
          }
          SumAppend(written, n);
          written := written + [n];
          total := total + n;
          if total > MirrorCap {
            return Failed(OverCap), written, i;
          }
      }
      i := i + 1;
    }
    assert archive[..i] == archive;
    end := Extracted;
  }
}
