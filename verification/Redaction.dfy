/** Withholding source from an event's detail (redactSourceValue): a nested value
    is copied with every source-bearing key replaced by a length or a mark. */
module Redaction {
  import opened Common

  /** A detail value: the three container shapes walked (an object, a list, a
      list of objects), text and bytes, the numbers a duration may be, and
      whatever else an emit may carry. */
  datatype Value =
    | Text(text: string)
    | Bytes(bytes: string)
    | Int(whole: int)
    | Float(float: real)
    | Flag(on: bool)
    | Other(name: string)
    | Obj(fields: map<string, Value>)
    | List(items: seq<Value>)
    | Objs(items: seq<Value>)

  /** A list of objects holds only objects, at every depth. */
  ghost predicate WellTyped(v: Value) {
    match v
    case Obj(m) => forall k :: k in m ==> WellTyped(m[k])
    case List(items) => forall i :: 0 <= i < |items| ==> WellTyped(items[i])
    case Objs(items) => forall i :: 0 <= i < |items| ==> items[i].Obj? && WellTyped(items[i])
    case _ => true
  }

  const SourceKeys: set<string> :=
    {"code", "dev_test_code", "goal", "authored_test", "test_code", "pool_test", "mutant_code", "output", "stdout",
     "stderr"}

  /** Lower case, with '-' and ' ' as '_'. */
  function FoldChar(c: char): char {
    if c == '-' || c == ' ' then '_'
    else if 'A' <= c <= 'Z' then (c as int - 'A' as int + 'a' as int) as char
    else c
  }

  function Fold(k: string): (f: string)
    ensures |f| == |k|
    ensures forall i :: 0 <= i < |k| ==> f[i] == FoldChar(k[i])
  {
    seq(|k|, i requires 0 <= i < |k| => FoldChar(k[i]))
  }

  predicate SourceBearing(k: string) {
    k in SourceKeys || Fold(k) in SourceKeys
  }

  predicate Needs(v: Value) {
    match v
    case Obj(m) => exists k :: k in m && (SourceBearing(k) || Needs(m[k]))
    case List(items) => exists i :: 0 <= i < |items| && Needs(items[i])
    case Objs(items) => exists i :: 0 <= i < |items| && Needs(items[i])
    case _ => false
  }

  /** What stands in for a source-bearing key: its key and its value. */
  function Stub(k: string, v: Value): (string, Value) {
    match v
    case Text(b) => (k + "_bytes", Int(|b|))
    case Bytes(b) => (k + "_bytes", Int(|b|))
    case _ => (k + "_redacted", Flag(true))
  }

  /** w is a redaction of v. Where a stub's key is also a key of the object, the
      source's own map order decides which of the two is written last, so there
      may be two redactions. */
  ghost predicate Redacts(v: Value, w: Value)
    decreases v, 1
  {
    if !Needs(v) then w == v
    else match v
      case Obj(m) =>
        w.Obj?
        && (forall k :: k in m ==> Represented(m, k, w.fields))
        && (forall x :: x in w.fields ==> Kept(v, x, w.fields[x]) || Stubbed(m, x, w.fields[x]))
      case List(items) =>
        w.List? && |w.items| == |items| && forall i :: 0 <= i < |items| ==> Redacts(items[i], w.items[i])
      case Objs(items) =>
        w.Objs? && |w.items| == |items| && forall i :: 0 <= i < |items| ==> Redacts(items[i], w.items[i])
      case _ => true
  }

  /** The key itself, or its stub's, is in the output. */
  predicate Represented(m: map<string, Value>, k: string, out: map<string, Value>)
    requires k in m
  {
    (if SourceBearing(k) then Stub(k, m[k]).0 else k) in out
  }

  ghost predicate Kept(v: Value, x: string, y: Value)
    requires v.Obj?
    decreases v, 0
  {
    x in v.fields && !SourceBearing(x) && Redacts(v.fields[x], y)
  }

  ghost predicate Stubbed(m: map<string, Value>, x: string, y: Value) {
    exists k :: k in m && SourceBearing(k) && Stub(k, m[k]) == (x, y)
  }

  /** The redactor itself: recursive, filling a fresh object or list, and walking
      each object's keys in whatever order they come. */
  method RedactSourceValue(v: Value) returns (w: Value)
    ensures Redacts(v, w)
    decreases v
  {
    if !Needs(v) {
      return v;
    }
    match v {
      case Obj(m) =>
        var out: map<string, Value> := map[];
        var keys := m.Keys;
        while keys != {}
          invariant keys <= m.Keys
          invariant forall k :: k in m && k !in keys ==> Represented(m, k, out)
          invariant forall x :: x in out ==> Kept(v, x, out[x]) || Stubbed(m, x, out[x])
          decreases keys
        {
          var k :| k in keys;
          if SourceBearing(k) {
            var (x, y) := Stub(k, m[k]);
            assert Stubbed(m, x, y);
            out := out[x := y];
          } else {
            var inner := RedactSourceValue(m[k]);
            assert Kept(v, k, inner);
            out := out[k := inner];
          }
          keys := keys - {k};
        }
        w := Obj(out);
      case List(items) =>
        var out := [];
        for i := 0 to |items|
          invariant |out| == i && forall j :: 0 <= j < i ==> Redacts(items[j], out[j])
        {
          var inner := RedactSourceValue(items[i]);
          out := out + [inner];
        }
        w := List(out);
      case Objs(items) =>
        var out := [];
        for i := 0 to |items|
          invariant |out| == i && forall j :: 0 <= j < i ==> Redacts(items[j], out[j])
        {
          var inner := RedactSourceValue(items[i]);
          out := out + [inner];
        }
        w := Objs(out);
      case _ => w := v;
    }
  }

  // ---- Keys ----

  /** No source-bearing name ends as a stub's key does, so no stub needs
      withholding in its turn. */
  lemma StubsAreNotSource(k: string, v: Value)
    ensures !SourceBearing(Stub(k, v).0)
    ensures !Needs(Stub(k, v).1)
  {
    var x := Stub(k, v).0;
    assert x[|x| - 1] == 's' || x[|x| - 1] == 'd';
    assert Fold(x)[|x| - 1] == x[|x| - 1];
    SourceKeysEnd(x);
    SourceKeysEnd(Fold(x));
  }

  lemma SourceKeysEnd(x: string)
    requires |x| > 0 && x[|x| - 1] in {'s', 'd'}
    ensures x !in SourceKeys
  {
  }

  /** Different keys never share a stub. */
  lemma StubsAreDistinct(k1: string, v1: Value, k2: string, v2: Value)
    requires Stub(k1, v1).0 == Stub(k2, v2).0
    ensures k1 == k2
  {
    var x := Stub(k1, v1).0;
    if v1.Text? || v1.Bytes? {
      assert x[|x| - 1] == 's';
      assert x[..|x| - 6] == k1;
    } else {
      assert x[|x| - 1] == 'd';
      assert x[..|x| - 9] == k1;
    }
  }

  // ---- The result never needs redaction ----

  lemma {:induction false} RedactedIsClean(v: Value, w: Value)
    requires Redacts(v, w)
    ensures !Needs(w)
    decreases v
  {
    if Needs(v) {
      match v {
        case Obj(m) =>
          forall x | x in w.fields ensures !SourceBearing(x) && !Needs(w.fields[x]) {
            if Kept(v, x, w.fields[x]) {
              RedactedIsClean(m[x], w.fields[x]);
            } else {
              var k :| k in m && SourceBearing(k) && Stub(k, m[k]) == (x, w.fields[x]);
              StubsAreNotSource(k, m[k]);
            }
          }
        case List(items) =>
          forall i | 0 <= i < |items| ensures !Needs(w.items[i]) {
            RedactedIsClean(items[i], w.items[i]);
          }
        case Objs(items) =>
          forall i | 0 <= i < |items| ensures !Needs(w.items[i]) {
            RedactedIsClean(items[i], w.items[i]);
          }
        case _ =>
      }
    }
  }

  /** Redaction is sound, exact and idempotent: what comes out needs no more, a
      value with nothing to withhold comes out as it went in, and a second pass
      changes nothing. */
  lemma RedactionIsIdempotent(v: Value, w: Value, x: Value)
    requires Redacts(v, w)
    ensures !Needs(w) && (!Needs(v) ==> w == v)
    ensures Redacts(w, x) <==> x == w
  {
    RedactedIsClean(v, w);
  }

  // ---- What becomes of each key ----

  /** A source-bearing key is gone, and its length or mark stands in for it. */
  lemma SourceKeyIsStubbed(m: map<string, Value>, k: string, w: Value)
    requires k in m && SourceBearing(k) && Redacts(Obj(m), w)
    ensures w.Obj? && k !in w.fields && Stub(k, m[k]).0 in w.fields
    ensures Stub(k, m[k]).0 !in m ==> w.fields[Stub(k, m[k]).0] == Stub(k, m[k]).1
  {
    var v, x := Obj(m), Stub(k, m[k]).0;
    assert Needs(v) && Represented(m, k, w.fields);
    RedactedIsClean(v, w);
    if x !in m {
      assert Kept(v, x, w.fields[x]) || Stubbed(m, x, w.fields[x]);
      var k2 :| k2 in m && SourceBearing(k2) && Stub(k2, m[k2]) == (x, w.fields[x]);
      StubsAreDistinct(k, m[k], k2, m[k2]);
    }
  }

  /** A stub of another key that would overwrite x with something else. */
  predicate Overwritten(m: map<string, Value>, x: string)
    requires x in m
  {
    exists k :: k in m && SourceBearing(k) && Stub(k, m[k]).0 == x && Stub(k, m[k]).1 != m[x]
  }

  ghost predicate Survives(m: map<string, Value>, x: string)
    requires x in m
  {
    forall w :: Redacts(Obj(m), w) ==> w.Obj? && x in w.fields && Redacts(m[x], w.fields[x])
  }

  /** A key that is not source-bearing keeps its redacted value in whatever order
      the object is walked, exactly when no stub is written over it. */
  lemma SurvivesUnlessOverwritten(m: map<string, Value>, x: string)
    requires x in m && !SourceBearing(x)
    ensures Survives(m, x) <==> !Overwritten(m, x)
  {
    var v := Obj(m);
    if Overwritten(m, x) {
      var k :| k in m && SourceBearing(k) && Stub(k, m[k]).0 == x && Stub(k, m[k]).1 != m[x];
      WalkRedacts(v, true);
      var w := Walk(v, true);
      assert Needs(v) && x in StubKeys(m);
      StubValueIsTheStub(m, k);
      assert w.fields[x] == Stub(k, m[k]).1;
      assert !Redacts(m[x], w.fields[x]);
    } else {
      forall w | Redacts(v, w) ensures w.Obj? && x in w.fields && Redacts(m[x], w.fields[x]) {
        if Needs(v) {
          assert Represented(m, x, w.fields);
          if !Kept(v, x, w.fields[x]) {
            assert Stubbed(m, x, w.fields[x]);
            assert w.fields[x] == m[x];
            var k :| k in m && SourceBearing(k) && Stub(k, m[k]) == (x, w.fields[x]);
            StubsAreNotSource(k, m[k]);
          }
        } else {
          assert !Needs(m[x]);
        }
      }
    }
  }

  /** A stub's value stands in whatever order the object is walked, exactly when
      the object has no key of the stub's name with another value. */
  lemma StubStandsUnlessOverwritten(m: map<string, Value>, k: string)
    requires k in m && SourceBearing(k)
    ensures var (x, y) := Stub(k, m[k]);
            (forall w :: Redacts(Obj(m), w) ==> w.Obj? && x in w.fields && w.fields[x] == y) <==> (x in m ==> m[x] == y)
  {
    var v := Obj(m);
    var (x, y) := Stub(k, m[k]);
    StubsAreNotSource(k, m[k]);
    if x in m && m[x] != y {
      var w := Walk(v, false);
      WalkRedacts(v, false);
      PlainLast(m, x);
      if Redacts(m[x], y) {
        RedactedToStub(k, m[k], m[x]);
      }
    } else {
      forall w | Redacts(v, w) ensures w.Obj? && x in w.fields && w.fields[x] == y {
        SourceKeyIsStubbed(m, k, w);
        if x in m && Kept(v, x, w.fields[x]) {
          assert Redacts(m[x], w.fields[x]) && m[x] == y && !Needs(m[x]);
        } else if x in m {
          var k2 :| k2 in m && SourceBearing(k2) && Stub(k2, m[k2]) == (x, w.fields[x]);
          StubsAreDistinct(k, m[k], k2, m[k2]);
        }
      }
    }
  }

  /** Only a stub's own value redacts to it. */
  lemma RedactedToStub(k: string, inner: Value, v: Value)
    requires Redacts(v, Stub(k, inner).1)
    ensures v == Stub(k, inner).1
  {
  }

  // The redactions two walks give: every stub written after every other key, and
  // every stub written before.

  ghost function StubKeys(m: map<string, Value>): set<string> {
    set k | k in m && SourceBearing(k) :: Stub(k, m[k]).0
  }

  ghost function StubValue(m: map<string, Value>, x: string): Value
    requires x in StubKeys(m)
  {
    var k :| k in m && SourceBearing(k) && Stub(k, m[k]).0 == x;
    Stub(k, m[k]).1
  }

  lemma StubValueIsTheStub(m: map<string, Value>, k: string)
    requires k in m && SourceBearing(k)
    ensures Stub(k, m[k]).0 in StubKeys(m) && StubValue(m, Stub(k, m[k]).0) == Stub(k, m[k]).1
  {
    var x := Stub(k, m[k]).0;
    var k2 :| k2 in m && SourceBearing(k2) && Stub(k2, m[k2]).0 == x && StubValue(m, x) == Stub(k2, m[k2]).1;
    StubsAreDistinct(k, m[k], k2, m[k2]);
  }

  ghost function Walk(v: Value, stubsLast: bool): Value
    decreases v
  {
    if !Needs(v) then v
    else match v
      case Obj(m) =>
        var plain := set k | k in m && !SourceBearing(k);
        Obj(map x | x in plain + StubKeys(m) ::
              if x in StubKeys(m) && (stubsLast || x !in plain) then StubValue(m, x) else Walk(m[x], stubsLast))
      case List(items) => List(seq(|items|, i requires 0 <= i < |items| => Walk(items[i], stubsLast)))
      case Objs(items) => Objs(seq(|items|, i requires 0 <= i < |items| => Walk(items[i], stubsLast)))
      case _ => v
  }

  /** Both walks redact, so where names collide either value may be lost. */
  lemma {:induction false} WalkRedacts(v: Value, stubsLast: bool)
    ensures Redacts(v, Walk(v, stubsLast))
    decreases v
  {
    if Needs(v) {
      var w := Walk(v, stubsLast);
      match v {
        case Obj(m) =>
          forall k | k in m ensures Represented(m, k, w.fields) {
            if SourceBearing(k) { StubValueIsTheStub(m, k); }
          }
          forall x | x in w.fields ensures Kept(v, x, w.fields[x]) || Stubbed(m, x, w.fields[x]) {
            if x in StubKeys(m) && (stubsLast || x !in m || SourceBearing(x)) {
              var k :| k in m && SourceBearing(k) && Stub(k, m[k]).0 == x;
              StubValueIsTheStub(m, k);
            } else {
              WalkRedacts(m[x], stubsLast);
            }
          }
        case List(items) =>
          forall i | 0 <= i < |items| ensures Redacts(items[i], w.items[i]) {
            WalkRedacts(items[i], stubsLast);
          }
        case Objs(items) =>
          forall i | 0 <= i < |items| ensures Redacts(items[i], w.items[i]) {
            WalkRedacts(items[i], stubsLast);
          }
        case _ =>
      }
    }
  }

  /** Plain keys written last keep their redacted value. */
  lemma PlainLast(m: map<string, Value>, x: string)
    requires Needs(Obj(m)) && x in m && !SourceBearing(x)
    ensures var w := Walk(Obj(m), false);
            w.Obj? && x in w.fields && Redacts(m[x], w.fields[x])
  {
    WalkRedacts(m[x], false);
  }

  /** Such an object: two redactions, one losing the plain value, one the stub's. */
  lemma CollisionHasTwoRedactions()
    ensures var m := map["code" := Text("ab"), "code_bytes" := Text("x")];
            && Redacts(Obj(m), Obj(map["code_bytes" := Int(2)]))
            && Redacts(Obj(m), Obj(map["code_bytes" := Text("x")]))
  {
    var m := map["code" := Text("ab"), "code_bytes" := Text("x")];
    var stub, plain := map["code_bytes" := Int(2)], map["code_bytes" := Text("x")];
    assert "code" + "_bytes" == "code_bytes" && |"ab"| == 2;
    assert SourceBearing("code") && Stub("code", m["code"]) == ("code_bytes", Int(2));
    StubsAreNotSource("code", m["code"]);
    assert Needs(Obj(m));
    assert Stubbed(m, "code_bytes", stub["code_bytes"]);
    assert Kept(Obj(m), "code_bytes", plain["code_bytes"]);
  }

  /** Shapes survive: an object stays an object, and a list of objects a list of
      objects, so the source's type assertions on its own results never fail. */
  lemma {:induction false} RedactionKeepsShapes(v: Value, w: Value)
    requires WellTyped(v) && Redacts(v, w)
    ensures WellTyped(w) && (v.Obj? <==> w.Obj?)
    decreases v
  {
    if Needs(v) {
      match v {
        case Obj(m) =>
          forall x | x in w.fields ensures WellTyped(w.fields[x]) {
            if Kept(v, x, w.fields[x]) {
              RedactionKeepsShapes(m[x], w.fields[x]);
            }
          }
        case List(items) =>
          forall i | 0 <= i < |items| ensures WellTyped(w.items[i]) {
            RedactionKeepsShapes(items[i], w.items[i]);
          }
        case Objs(items) =>
          forall i | 0 <= i < |items| ensures w.items[i].Obj? && WellTyped(w.items[i]) {
            RedactionKeepsShapes(items[i], w.items[i]);
          }
        case _ =>
      }
    }
  }

  // ---- The duration lifted from a detail ----

  const DurationKey := "duration_ms"

  lemma DurationKeyIsPlain(k: string, v: Value)
    ensures !SourceBearing(DurationKey) && Stub(k, v).0 != DurationKey
  {
    var d, x := DurationKey, Stub(k, v).0;
    assert |d| == 11 && d[10] == 's' && d[9] == 'm';
    assert Fold(d)[10] == 's';
    SourceKeysEnd(d);
    SourceKeysEnd(Fold(d));
    assert x[|x| - 1] == 'd' || x[|x| - 2] == 'e';
  }

  /** A number in whole milliseconds, a float cut toward zero; 0 for anything else. */
  function Millis(v: Value): int {
    match v
    case Int(n) => n
    case Float(r) => if r < 0.0 then -((-r).Floor) else r.Floor
    case _ => 0
  }

  /** The duration lifted from a detail: a positive number under duration_ms. */
  function DurationMillis(m: map<string, Value>): (d: Option<int>)
    ensures d.Some? ==> d.value > 0
  {
    if DurationKey in m && Millis(m[DurationKey]) > 0 then Some(Millis(m[DurationKey])) else None
  }

  lemma MillisUnaffected(v: Value, w: Value)
    requires Redacts(v, w)
    ensures Millis(w) == Millis(v)
  {
    match v
    case Obj(_) =>
    case List(_) =>
    case Objs(_) =>
    case _ =>
  }

  /** Redaction never changes, adds or loses a duration. */
  lemma DurationUnaffected(m: map<string, Value>, w: Value)
    requires Redacts(Obj(m), w)
    ensures w.Obj? && DurationMillis(w.fields) == DurationMillis(m)
  {
    var v, d := Obj(m), DurationKey;
    if Needs(v) {
      forall k | k in m ensures Stub(k, m[k]).0 != d {
        DurationKeyIsPlain(k, m[k]);
      }
      DurationKeyIsPlain("", Other(""));
      if d in m {
        assert Represented(m, d, w.fields);
      }
      if d in w.fields {
        assert Kept(v, d, w.fields[d]) || Stubbed(m, d, w.fields[d]);
        assert Kept(v, d, w.fields[d]);
        MillisUnaffected(m[d], w.fields[d]);
      }
    }
  }

  /** The duration is the number under duration_ms in whole milliseconds, when it
      is at least one; nothing else counts as one. */
  lemma DurationIsLifted(m: map<string, Value>, n: int)
    ensures DurationMillis(m) == Some(n) <==>
            && n > 0 && "duration_ms" in m
            && (m["duration_ms"] == Int(n) ||
                (m["duration_ms"].Float? && n as real <= m["duration_ms"].float < (n + 1) as real))
  {
  }

  // ---- Spellings of a key ----

  /** Two characters a reader takes for the same in a key: up to ASCII case, and
      with a hyphen, a blank and an underscore counted as one. */
  predicate Alike(c: char, d: char) {
    || c == d
    || (c in {'-', ' ', '_'} && d in {'-', ' ', '_'})
    || ('A' <= c <= 'Z' && d as int == c as int + 32)
    || ('A' <= d <= 'Z' && c as int == d as int + 32)
  }

  predicate Respells(a: string, b: string) {
    |a| == |b| && forall i :: 0 <= i < |a| ==> Alike(a[i], b[i])
  }

  lemma AlikeFoldsAlike(c: char, d: char)
    ensures Alike(c, d) <==> FoldChar(c) == FoldChar(d)
  {
  }

  lemma RespelledFoldsAlike(a: string, b: string)
    ensures Respells(a, b) <==> Fold(a) == Fold(b)
  {
    forall i | 0 <= i < |a| && i < |b|
      ensures Alike(a[i], b[i]) <==> Fold(a)[i] == Fold(b)[i]
    {
      AlikeFoldsAlike(a[i], b[i]);
    }
    if Fold(a) == Fold(b) {
      assert |a| == |Fold(a)| == |b|;
      assert forall i :: 0 <= i < |a| ==> Fold(a)[i] == Fold(b)[i];
    }
  }

  /** The names themselves are written the way folding writes them. */
  lemma NamesAreFolded(s: string)
    requires s in SourceKeys
    ensures Fold(s) == s
  {
    assert forall i :: 0 <= i < |s| ==> FoldChar(s[i]) == s[i];
  }

  lemma FoldedTwice(k: string)
    ensures Fold(Fold(k)) == Fold(k)
  {
    assert forall i :: 0 <= i < |k| ==> FoldChar(FoldChar(k[i])) == FoldChar(k[i]);
  }

  /** A key is source-bearing exactly when it is one of the names in some spelling. */
  lemma WithheldInAnySpelling(k: string)
    ensures SourceBearing(k) <==> exists s :: s in SourceKeys && Respells(k, s)
  {
    if SourceBearing(k) {
      var s := if k in SourceKeys then k else Fold(k);
      if k !in SourceKeys {
        FoldedTwice(k);
        RespelledFoldsAlike(k, s);
      }
      assert s in SourceKeys && Respells(k, s);
    }
    forall s | s in SourceKeys && Respells(k, s)
      ensures SourceBearing(k)
    {
      NamesAreFolded(s);
      RespelledFoldsAlike(k, s);
    }
  }

  /** So two spellings of a key are withheld alike. */
  lemma SpellingsAreWithheldAlike(a: string, b: string)
    requires Respells(a, b)
    ensures SourceBearing(a) <==> SourceBearing(b)
  {
    WithheldInAnySpelling(a);
    WithheldInAnySpelling(b);
    forall s | s in SourceKeys
      ensures Respells(a, s) <==> Respells(b, s)
    {
      RespelledFoldsAlike(a, b);
      RespelledFoldsAlike(a, s);
      RespelledFoldsAlike(b, s);
    }
  }

  /** What a withheld value leaves behind where no key is in the way: the length of
      a text or of bytes, a mark for anything else, and under no other name. */
  lemma WithheldLeavesItsLength(m: map<string, Value>, k: string, w: Value)
    requires k in m && SourceBearing(k) && Redacts(Obj(m), w)
    ensures w.Obj? && k !in w.fields
    ensures m[k].Text? && k + "_bytes" !in m ==>
              k + "_bytes" in w.fields && w.fields[k + "_bytes"] == Int(|m[k].text|)
    ensures m[k].Bytes? && k + "_bytes" !in m ==>
              k + "_bytes" in w.fields && w.fields[k + "_bytes"] == Int(|m[k].bytes|)
    ensures !m[k].Text? && !m[k].Bytes? && k + "_redacted" !in m ==>
              k + "_redacted" in w.fields && w.fields[k + "_redacted"] == Flag(true)
  {
    SourceKeyIsStubbed(m, k, w);
  }

  // ---- Depth ----

  /** One step down into a value. */
  datatype Descent = Field(key: string) | Item(index: nat)

  function Below(v: Value, step: Descent): Option<Value> {
    match (v, step)
    case (Obj(m), Field(k)) => if k in m then Some(m[k]) else None
    case (List(items), Item(i)) => if i < |items| then Some(items[i]) else None
    case (Objs(items), Item(i)) => if i < |items| then Some(items[i]) else None
    case _ => None
  }

  function Follow(v: Value, way: seq<Descent>): Option<Value> {
    if way == [] then Some(v)
    else match Below(v, way[0])
      case Some(inner) => Follow(inner, way[1..])
      case None => None
  }

  /** The value at the end of the way is an object with a source-bearing key. */
  predicate LeadsToSource(v: Value, way: seq<Descent>) {
    match Follow(v, way)
    case Some(Obj(m)) => exists k :: k in m && SourceBearing(k)
    case _ => false
  }

  lemma StepDown(v: Value, step: Descent, inner: Value, way: seq<Descent>)
    requires Below(v, step) == Some(inner) && LeadsToSource(inner, way)
    ensures LeadsToSource(v, [step] + way)
  {
    assert ([step] + way)[1..] == way;
  }

  lemma {:induction false} NeedsHasAWay(v: Value) returns (way: seq<Descent>)
    requires Needs(v)
    ensures LeadsToSource(v, way)
    decreases v
  {
    way := [];
    match v {
      case Obj(m) =>
        if k :| k in m && SourceBearing(k) {
        } else {
          var k :| k in m && Needs(m[k]);
          var rest := NeedsHasAWay(m[k]);
          StepDown(v, Field(k), m[k], rest);
          way := [Field(k)] + rest;
        }
      case List(items) =>
        var i :| 0 <= i < |items| && Needs(items[i]);
        var rest := NeedsHasAWay(items[i]);
        StepDown(v, Item(i), items[i], rest);
        way := [Item(i)] + rest;
      case Objs(items) =>
        var i :| 0 <= i < |items| && Needs(items[i]);
        var rest := NeedsHasAWay(items[i]);
        StepDown(v, Item(i), items[i], rest);
        way := [Item(i)] + rest;
    }
  }

  lemma {:induction false} AWayNeeds(v: Value, way: seq<Descent>)
    requires LeadsToSource(v, way)
    ensures Needs(v)
    decreases |way|
  {
    if way != [] {
      AWayNeeds(Below(v, way[0]).value, way[1..]);
    }
  }

  /** No way down into a redacted value, however long, leads to a source-bearing
      key; and a value none leads to one in is its own redaction. */
  lemma NoWayLeadsToSource(v: Value, w: Value)
    requires Redacts(v, w)
    ensures forall way :: !LeadsToSource(w, way)
    ensures (forall way :: !LeadsToSource(v, way)) ==> w == v
  {
    RedactedIsClean(v, w);
    forall way ensures !LeadsToSource(w, way) {
      if LeadsToSource(w, way) {
        AWayNeeds(w, way);
      }
    }
    if Needs(v) {
      var way := NeedsHasAWay(v);
    }
  }
}
