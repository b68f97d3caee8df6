/** The scan's event sink (scanEventSink): a capped log that says how much it
    dropped. */
module ScanEvents {
  import opened Common
  import opened Redaction

  /** scanEventCap */
  const EventCap: nat := 100_000

  /** What a record call is given, and what json.Marshal and the clock did in it. */
  datatype Beat = Beat(path: string, kind: string, subject: string, detail: Option<map<string, Value>>,
    marshals: bool, now: int)

  /** The text stored for a detail. */
  datatype Detail = Json(value: Value) | EmptyObject | Dropped(count: nat)

  datatype Event = Event(path: string, number: nat, now: int, kind: string, subject: string, detail: Detail,
    duration: Option<int>)

  function DetailOf(b: Beat): map<string, Value> {
    match b.detail
    case Some(m) => m
    case None => map[]
  }

  /** e is a row for beat b: its own fields, its detail redacted of source, and
      the duration of the detail it was given. */
  ghost predicate RowFor(b: Beat, e: Event, number: nat) {
    && e.path == b.path && e.kind == b.kind && e.subject == b.subject && e.now == b.now && e.number == number
    && e.duration == DurationMillis(DetailOf(b))
    && (if b.marshals then e.detail.Json? && Redacts(Obj(DetailOf(b)), e.detail.value) else e.detail == EmptyObject)
  }

  predicate MarkerRow(e: Event, number: nat, dropped: nat) {
    e.kind == "events_truncated" && e.path == "" && e.subject == "" && e.duration.None?
    && e.number == number && e.detail == Dropped(dropped)
  }

  /** The log after the given record calls: every one of them below the cap; from
      the cap on, the first of them and one row saying how many came after. */
  ghost predicate LogOf(beats: seq<Beat>, events: seq<Event>) {
    var kept := if |beats| < EventCap then |beats| else EventCap;
    && |events| == (if |beats| < EventCap then kept else kept + 1)
    && (forall i :: 0 <= i < kept ==> RowFor(beats[i], events[i], i + 1))
    && (|beats| >= EventCap ==> MarkerRow(events[EventCap], EventCap + 1, |beats| - EventCap))
  }

  method BuildScanEvent(b: Beat, number: nat) returns (e: Event)
    ensures RowFor(b, e, number)
  {
    var redacted := RedactSourceValue(Obj(DetailOf(b)));
    DurationUnaffected(DetailOf(b), redacted);
    e := Event(b.path, number, b.now, b.kind, b.subject,
               if b.marshals then Json(redacted) else EmptyObject, DurationMillis(redacted.fields));
  }

  class ScanEventSink {
    var last: nat
    var events: seq<Event>
    var truncated: bool
    var truncatedIdx: nat
    var dropped: nat
    ghost var beats: seq<Beat>

    ghost predicate Valid()
      reads this
    {
      && LogOf(beats, events)
      && last == |events|
      && (truncated <==> |beats| >= EventCap)
      && (truncated ==> truncatedIdx == EventCap && dropped == |beats| - EventCap)
    }

    constructor ()
      ensures Valid() && beats == [] && events == []
    {
      last, events, truncated, truncatedIdx, dropped := 0, [], false, 0, 0;
      beats := [];
    }

    method Record(b: Beat)
      requires Valid()
      modifies this
      ensures Valid() && beats == old(beats) + [b]
    {
      beats := beats + [b];
      if truncated {
        dropped := dropped + 1;
        RewriteTruncated();
        return;
      }
      last := last + 1;
      var e := BuildScanEvent(b, last);
      events := events + [e];
      if |events| >= EventCap {
        truncated := true;
        last := last + 1;
        truncatedIdx := |events|;
        dropped := 0;
        events := events + [Event("", last, b.now, "events_truncated", "", Dropped(0), None)];
      }
    }

    /** Rewrites the one marker row's count and nothing else. */
    method RewriteTruncated()
      requires truncatedIdx < |events|
      modifies this`events
      ensures events == old(events)[truncatedIdx := old(events)[truncatedIdx].(detail := Dropped(dropped))]
    {
      events := events[truncatedIdx := events[truncatedIdx].(detail := Dropped(dropped))];
    }

    /** A copy of everything recorded so far. */
    method Drain() returns (out: seq<Event>)
      requires Valid()
      ensures out == events && LogOf(beats, out)
    {
      out := events;
    }
  }

  /** Exact accounting: rows are numbered from 1 without a gap, what was dropped
      and what was kept add up to what was recorded, and no row holds source. */
  lemma LogIsExact(beats: seq<Beat>, events: seq<Event>)
    requires LogOf(beats, events)
    ensures forall i :: 0 <= i < |events| ==> events[i].number == i + 1
    ensures forall i :: 0 <= i < |events| ==> (events[i].detail.Json? ==> !Needs(events[i].detail.value))
    ensures forall i :: 0 <= i < |beats| && i < 100_000 ==>
              && events[i].path == beats[i].path && events[i].kind == beats[i].kind
              && events[i].subject == beats[i].subject && events[i].now == beats[i].now
    ensures |beats| >= 100_000 ==>
              && |events| == 100_001 && events[100_000].kind == "events_truncated"
              && events[100_000].detail.Dropped? && 100_000 + events[100_000].detail.count == |beats|
    ensures |beats| < 100_000 ==> |events| == |beats|
  {
    forall i | 0 <= i < |events| && events[i].detail.Json? ensures !Needs(events[i].detail.value) {
      if i < |beats| && i < EventCap {
        assert RowFor(beats[i], events[i], i + 1);
        RedactedIsClean(Obj(DetailOf(beats[i])), events[i].detail.value);
      }
    }
    forall i | 0 <= i < |events| ensures events[i].number == i + 1 {
      if i < |beats| && i < EventCap {
        assert RowFor(beats[i], events[i], i + 1);
      }
    }
  }
}
