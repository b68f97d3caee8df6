/** Vocabulary shared by the modules: the usual optional value, sequences
    without repetition, and how large such a sequence of small numbers can be. */
module Common {
  datatype Option<+T> = None | Some(value: T)

  ghost predicate NoDup<T>(s: seq<T>) {
    forall i, j :: 0 <= i < j < |s| ==> s[i] != s[j]
  }

  ghost function Below(n: nat): (s: set<nat>)
    ensures |s| == n
    ensures forall k: nat :: k in s <==> k < n
  {
    if n == 0 then {} else Below(n - 1) + {n - 1}
  }

  lemma {:induction false} NoDupFits<T>(s: seq<T>, room: set<T>)
    requires NoDup(s)
    requires forall x :: x in s ==> x in room
    ensures |s| <= |room|
  {
    if |s| > 0 {
      var last := |s| - 1;
      NoDupFits(s[..last], room - {s[last]});
    }
  }
}
