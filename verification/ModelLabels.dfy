/** The list of model labels a recording shows (cmd_models): backend:model when
    the stream says a backend, the bare model otherwise, each model once. */
module ModelLabels {
  import opened Sorting

  /** An event of the recording; an absent field is empty. */
  datatype Event = Event(kind: string, model: string, backend: string, modelsByRole: seq<string>)

  /** White space within ASCII, as Python's strip sees it. */
  predicate Blank(c: char) {
    c == ' ' || 9 <= c as int <= 13 || 28 <= c as int <= 31
  }

  function StripLeft(s: string): string {
    if s != "" && Blank(s[0]) then StripLeft(s[1..]) else s
  }

  function StripRight(s: string): string {
    if s != "" && Blank(s[|s| - 1]) then StripRight(s[..|s| - 1]) else s
  }

  function Strip(s: string): string {
    StripRight(StripLeft(s))
  }

  /** The label an event of the stream adds, empty for none. */
  function StreamLabel(e: Event): string {
    var m, backend := Strip(e.model), Strip(e.backend);
    if m == "" then "" else if backend == "" then m else backend + ":" + m
  }

  /** The labels a run's signed verdict adds: its models by role, bare. */
  function VerdictLabels(e: Event): set<string> {
    if e.kind == "pool_verdict" then RoleLabels(e.modelsByRole) else {}
  }

  function RoleLabels(models: seq<string>): set<string> {
    set rm | rm in models && Strip(rm) != "" :: Strip(rm)
  }

  function StreamUnion(events: seq<Event>): set<string> {
    set e | e in events && StreamLabel(e) != "" :: StreamLabel(e)
  }

  function VerdictUnion(events: seq<Event>): set<string> {
    set e, m | e in events && m in VerdictLabels(e) :: m
  }

  /** o ends with ':' + m: a qualified spelling of m. */
  predicate Qualifies(o: string, m: string) {
    |o| > |m| && o[|o| - |m|..] == m && o[|o| - |m| - 1] == ':'
  }

  function Collapse(models: set<string>): set<string> {
    set m | m in models && !exists o :: o in models && o != m && Qualifies(o, m)
  }

  ghost predicate Antichain(models: set<string>) {
    forall o, m :: o in models && m in models ==> !Qualifies(o, m)
  }

  ghost predicate Covered(m: string, kept: set<string>) {
    m in kept || exists k :: k in kept && Qualifies(k, m)
  }

  lemma QualifiesTransitive(a: string, b: string, c: string)
    requires Qualifies(a, b) && Qualifies(b, c)
    ensures Qualifies(a, c)
  {
    assert a[|a| - |b|..][|b| - |c|..] == a[|a| - |c|..];
    assert a[|a| - |c| - 1] == b[|b| - |c| - 1];
  }

  function Longer(models: set<string>, n: nat): set<string> {
    set o | o in models && |o| > n
  }

  /** Following qualified spellings upward ends, since each is longer. */
  lemma {:induction false} CollapseCovers(models: set<string>, m: string)
    requires m in models
    ensures Covered(m, Collapse(models))
    decreases Longer(models, |m|)
  {
    if m !in Collapse(models) {
      var o :| o in models && o != m && Qualifies(o, m);
      assert o in Longer(models, |m|) && o !in Longer(models, |o|);
      CollapseCovers(models, o);
      if o !in Collapse(models) {
        var k :| k in Collapse(models) && Qualifies(k, o);
        QualifiesTransitive(k, o, m);
      }
    }
  }

  /** The collapse is the one way to list each model once: the only subset of the
      labels in which none qualifies another and every label is kept or
      qualified by one that is. */
  lemma CollapseIsTheOnlyListing(models: set<string>, kept: set<string>)
    requires kept <= models
    ensures Antichain(kept) && (forall m :: m in models ==> Covered(m, kept)) <==> kept == Collapse(models)
  {
    forall m | m in models ensures Covered(m, Collapse(models)) {
      CollapseCovers(models, m);
    }
    if Antichain(kept) && (forall m :: m in models ==> Covered(m, kept)) {
      forall m | m in kept ensures m in Collapse(models) {
        forall o | o in models && o != m ensures !Qualifies(o, m) {
          assert Covered(o, kept);
          if o !in kept {
            var k :| k in kept && Qualifies(k, o);
            assert !Qualifies(k, m);
            NotBelow(k, o, m);
          }
        }
      }
      forall m | m in Collapse(models) ensures m in kept {
        assert Covered(m, kept);
      }
    }
  }

  lemma NotBelow(k: string, o: string, m: string)
    requires Qualifies(k, o) && !Qualifies(k, m)
    ensures !Qualifies(o, m)
  {
    if Qualifies(o, m) {
      QualifiesTransitive(k, o, m);
    }
  }

  /** Collapsing twice changes nothing. */
  lemma CollapseTwice(models: set<string>)
    ensures Collapse(Collapse(models)) == Collapse(models)
  {
    CollapseIsTheOnlyListing(models, Collapse(models));
    CollapseIsTheOnlyListing(Collapse(models), Collapse(models));
  }

  lemma StreamUnionGrows(events: seq<Event>, e: Event)
    ensures StreamUnion(events + [e]) == StreamUnion(events) + if StreamLabel(e) == "" then {} else {StreamLabel(e)}
  {
    assert forall x :: x in events + [e] <==> x in events || x == e;
  }

  lemma VerdictUnionGrows(events: seq<Event>, e: Event)
    ensures VerdictUnion(events + [e]) == VerdictUnion(events) + VerdictLabels(e)
  {
    assert forall x :: x in events + [e] <==> x in events || x == e;
  }

  lemma RoleLabelsGrow(models: seq<string>, rm: string)
    ensures RoleLabels(models + [rm]) == RoleLabels(models) + if Strip(rm) == "" then {} else {Strip(rm)}
  {
    assert forall x :: x in models + [rm] <==> x in models || x == rm;
  }

  /** The first loop: a label for each event that names a model. */
  method StreamModels(events: seq<Event>) returns (models: set<string>)
    ensures models == StreamUnion(events)
  {
    models := {};
    for i := 0 to |events|
      invariant models == StreamUnion(events[..i])
    {
      StreamUnionGrows(events[..i], events[i]);
      assert events[..i + 1] == events[..i] + [events[i]];
      var m := Strip(events[i].model);
      if m == "" {
        continue;
      }
      var backend := Strip(events[i].backend);
      models := models + {if backend != "" then backend + ":" + m else m};
    }
    assert events[..|events|] == events;
  }

  /** The models one verdict names by role. */
  method AddRoles(known: set<string>, roles: seq<string>) returns (models: set<string>)
    ensures models == known + RoleLabels(roles)
  {
    models := known;
    for j := 0 to |roles|
      invariant models == known + RoleLabels(roles[..j])
    {
      RoleLabelsGrow(roles[..j], roles[j]);
      assert roles[..j + 1] == roles[..j] + [roles[j]];
      var rm := Strip(roles[j]);
      if rm != "" {
        models := models + {rm};
      }
    }
    assert roles[..|roles|] == roles;
  }

  /** cmd_models: the union over the stream and the verdicts, collapsed, sorted. */
  method CmdModels(events: seq<Event>) returns (labels: seq<string>)
    ensures Sorted(labels)
    ensures Elements(labels) == Collapse(StreamUnion(events) + VerdictUnion(events))
  {
    var models := StreamModels(events);
    for i := 0 to |events|
      invariant models == StreamUnion(events) + VerdictUnion(events[..i])
    {
      VerdictUnionGrows(events[..i], events[i]);
      assert events[..i + 1] == events[..i] + [events[i]];
      if events[i].kind == "pool_verdict" {
        models := AddRoles(models, events[i].modelsByRole);
      }
    }
    assert events[..|events|] == events;
    labels := SortSet(Collapse(models));
  }

  /** Every nonblank model of a signed verdict is listed, under its own name or
      a qualified one. */
  lemma VerdictModelsListed(events: seq<Event>, e: Event, rm: string)
    requires e in events && e.kind == "pool_verdict" && rm in e.modelsByRole && Strip(rm) != ""
    ensures Covered(Strip(rm), Collapse(StreamUnion(events) + VerdictUnion(events)))
  {
    assert Strip(rm) in VerdictLabels(e);
    assert Strip(rm) in VerdictUnion(events);
    CollapseCovers(StreamUnion(events) + VerdictUnion(events), Strip(rm));
  }

  // ---- Labels ----

  const WhiteSpace := " \t\n\U{0B}\U{0C}\r\U{1C}\U{1D}\U{1E}\U{1F}"

  predicate AllBlank(s: string) {
    forall c :: c in s ==> Blank(c)
  }

  predicate Trimmed(s: string) {
    s == "" || (!Blank(s[0]) && !Blank(s[|s| - 1]))
  }

  /** The text without the blanks around it. */
  ghost predicate TrimOf(s: string, t: string, before: string, after: string) {
    s == before + t + after && AllBlank(before) && AllBlank(after) && Trimmed(t)
  }

  lemma {:induction false} LeftIsBlank(s: string) returns (before: string)
    ensures s == before + StripLeft(s) && AllBlank(before)
    ensures StripLeft(s) == "" || !Blank(StripLeft(s)[0])
    decreases |s|
  {
    before := "";
    if s != "" && Blank(s[0]) {
      var rest := LeftIsBlank(s[1..]);
      before := [s[0]] + rest;
      assert s == [s[0]] + s[1..];
    }
  }

  lemma {:induction false} RightIsBlank(s: string) returns (after: string)
    ensures s == StripRight(s) + after && AllBlank(after)
    ensures StripRight(s) == "" || !Blank(StripRight(s)[|StripRight(s)| - 1])
    decreases |s|
  {
    after := "";
    if s != "" && Blank(s[|s| - 1]) {
      var n := |s| - 1;
      var rest := RightIsBlank(s[..n]);
      after := rest + [s[n]];
      assert s == s[..n] + [s[n]];
    }
  }

  lemma BlankIsWhiteSpace(c: char)
    ensures Blank(c) <==> c in WhiteSpace
  {
  }

  /** Stripping takes the white space around a text and nothing else. */
  lemma StripTrims(s: string)
    ensures exists before, after :: TrimOf(s, Strip(s), before, after)
    ensures forall c :: Blank(c) <==> c in WhiteSpace
  {
    forall c
      ensures Blank(c) <==> c in WhiteSpace
    {
      BlankIsWhiteSpace(c);
    }
    var before := LeftIsBlank(s);
    var left := StripLeft(s);
    var after := RightIsBlank(left);
    var t := StripRight(left);
    if t != "" {
      assert left[0] == t[0];
    }
    assert TrimOf(s, Strip(s), before, after);
  }

  /** An event naming a model puts it on the list, behind its backend and a colon
      when it names one: the label or one qualifying it is kept. */
  lemma StreamModelsListed(events: seq<Event>, e: Event)
    requires e in events && Strip(e.model) != ""
    ensures var shown := if Strip(e.backend) == "" then Strip(e.model) else Strip(e.backend) + ":" + Strip(e.model);
            Covered(shown, Collapse(StreamUnion(events) + VerdictUnion(events)))
  {
    var shown := if Strip(e.backend) == "" then Strip(e.model) else Strip(e.backend) + ":" + Strip(e.model);
    assert StreamLabel(e) == shown != "" by {
      if Strip(e.backend) != "" {
        assert |shown| > 0;
      }
    }
    assert shown in StreamUnion(events);
    CollapseCovers(StreamUnion(events) + VerdictUnion(events), shown);
  }

  /** And nothing is listed that no event and no verdict named. */
  lemma OnlyNamedModelsListed(events: seq<Event>, shown: string)
    requires shown in Collapse(StreamUnion(events) + VerdictUnion(events))
    ensures shown != ""
    ensures exists e :: e in events &&
              ((Strip(e.model) != "" &&
                shown == if Strip(e.backend) == "" then Strip(e.model) else Strip(e.backend) + ":" + Strip(e.model))
               || (e.kind == "pool_verdict" && exists m :: m in e.modelsByRole && shown == Strip(m)))
  {
  }

  /** One label is qualified by another that is it behind some text and a colon. */
  lemma QualifiesMeans(o: string, m: string)
    ensures Qualifies(o, m) <==> exists q :: o == q + ":" + m
  {
    if Qualifies(o, m) {
      var q := o[..|o| - |m| - 1];
      assert o == q + [':'] + o[|o| - |m|..];
      assert o == q + ":" + m;
    }
    forall q | o == q + ":" + m
      ensures Qualifies(o, m)
    {
      assert o[|q| + 1..] == m && o[|q|] == ':';
    }
  }
}
