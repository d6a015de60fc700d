/** Two runs in which a call is sighted before it is linked to its group and a
    transmission is counted twice: by the group's other recording, and by a merge. */
module LateGroupRuns {
  import opened Sql
  import opened Evidence
  import opened SuggestionRows
  import opened SuggestionTables
  import opened SuggestionRuns
  import opened SuggestionCounts
  import opened LateGroups

  ghost predicate Reached(cap: int, n: State) {
    exists s, steps :: Init(s) && Runs(s, steps, cap) && After(s, steps, cap) == n
  }

  lemma Extends(cap: int, n: State, step: Step)
    requires Reached(cap, n) && Enabled(n, step)
    ensures Reached(cap, Next(n, step, cap))
  {
    var s, steps :| Init(s) && Runs(s, steps, cap) && After(s, steps, cap) == n;
    var all := steps + [step];
    assert all[..|all| - 1] == steps;
    assert Runs(s, all, cap);
  }

  const CANDIDATE: Key := Key(5, 100, "ENGINE 1")

  function Mention(callId: nat, group: Option<nat>): Sighting {
    Sighting(CANDIDATE, "Engine 1", 1, false, "", 0, Entry(callId, group, 0, ""))
  }

  const GROUP: CallGroup := CallGroup(5, 9, 0)

  /** One system, one group, and the given calls, suggestions and cursor. */
  function Stored(calls: map<nat, Call>, rows: Rows, nextId: int, last: int): Tables {
    Tables(map[5 := false], calls, map[1 := GROUP], map[], map[], rows, nextId, map[UnitTagSuggestions := last])
  }

  /** Two recordings of one transmission are ingested. */
  lemma TwoRecordings(cap: int)
    ensures Reached(cap, State(Stored(map[1 := Call(5, None), 2 := Call(5, None)], map[], 1, 0), 2, map[], [], map[]))
  {
    var t0 := Tables(map[], map[], map[], map[], map[], map[], 1, map[UnitTagSuggestions := 0]);
    var s0 := State(t0, 1, map[], [], map[]);
    assert Runs(s0, [], cap) && After(s0, [], cap) == s0;
    Extends(cap, s0, NewSystem(5));
    var s1 := State(t0.(deleted := map[5 := false]), 1, map[], [], map[]);
    assert Next(s0, NewSystem(5), cap) == s1;
    Extends(cap, s1, NewGroup(GROUP));
    var s2 := State(Stored(map[], map[], 1, 0), 2, map[], [], map[]);
    assert Next(s1, NewGroup(GROUP), cap) == s2;
    Extends(cap, s2, NewCall(1, Call(5, None)));
    var s3 := State(Stored(map[1 := Call(5, None)], map[], 1, 0), 2, map[], [], map[]);
    assert Next(s2, NewCall(1, Call(5, None)), cap) == s3;
    Extends(cap, s3, NewCall(2, Call(5, None)));
  }

  /** The first is fetched before it has its group. */
  lemma FirstFetchedEarly(cap: int)
    ensures Reached(cap, State(Stored(map[1 := Call(5, None), 2 := Call(5, None)], map[], 1, 0), 2,
                               map[0 := Batch(0, 10, [Mention(1, None)])], [], map[]))
  {
    TwoRecordings(cap);
    var n := State(Stored(map[1 := Call(5, None), 2 := Call(5, None)], map[], 1, 0), 2, map[], [], map[]);
    var b := Batch(0, 10, [Mention(1, None)]);
    assert forall sg <- b.sightings :: sg == Mention(1, None);
    Extends(cap, n, FetchBatch(0, b));
  }

  /** And applied. */
  lemma FirstSightedEarly(cap: int)
    ensures Reached(cap, State(
              Stored(map[1 := Call(5, None), 2 := Call(5, None)], map[CANDIDATE := FirstSighting(Mention(1, None), 1)],
                     2, 10),
              2, map[], [Range(0, 10)], map[CANDIDATE := {1}]))
  {
    FirstFetchedEarly(cap);
    var b := Batch(0, 10, [Mention(1, None)]);
    var n := State(Stored(map[1 := Call(5, None), 2 := Call(5, None)], map[], 1, 0), 2, map[0 := b], [], map[]);
    SingleApply(n, b, Mention(1, None), cap);
    Extends(cap, n, ApplyBatch(0));
    var none: set<nat> := {};
    assert none + {1} == {1};
    assert Hear(n.heard, Mention(1, None)) == map[CANDIDATE := none + {1}];
    assert n.fetched - {0} == map[] && [] + [Range(0, 10)] == [Range(0, 10)];
  }

  /** Then both are linked to it. */
  lemma BothLinked(cap: int)
    ensures Reached(cap, State(
              Stored(map[1 := Call(5, Some(1)), 2 := Call(5, Some(1))],
                     map[CANDIDATE := FirstSighting(Mention(1, None), 1)], 2, 10),
              2, map[], [Range(0, 10)], map[CANDIDATE := {1}]))
  {
    FirstSightedEarly(cap);
    var rows := map[CANDIDATE := FirstSighting(Mention(1, None), 1)];
    var s6 := State(Stored(map[1 := Call(5, None), 2 := Call(5, None)], rows, 2, 10), 2, map[], [Range(0, 10)],
                    map[CANDIDATE := {1}]);
    Extends(cap, s6, Regroup(1, 1));
    var s7 := State(Stored(map[1 := Call(5, Some(1)), 2 := Call(5, None)], rows, 2, 10), 2, map[], [Range(0, 10)],
                    map[CANDIDATE := {1}]);
    assert Next(s6, Regroup(1, 1), cap) == s7;
    Extends(cap, s7, Regroup(2, 1));
  }

  /** A batch of one sighting at the cursor. */
  lemma SingleApply(s: State, b: Batch, sg: Sighting, cap: int)
    requires 0 in s.fetched && s.fetched[0] == b && b.sightings == [sg]
    requires UnitTagSuggestions in s.t.cursors && s.t.cursors[UnitTagSuggestions] == b.fromId &&
             Live(s.t, sg.key.system)
    ensures AfterApply(s, 0, cap) ==
            State(s.t.(cursors := s.t.cursors[UnitTagSuggestions := b.toId],
                       suggestions := Record(s.t.suggestions, s.t.nextId, sg, EffectiveCap(cap)),
                       nextId := s.t.nextId + 1),
                  s.nextGroup, s.fetched - {0}, s.applied + [Range(b.fromId, b.toId)], Hear(s.heard, sg))
  {
    assert b.sightings[..0] == [];
    assert RecordAll(s.t.suggestions, s.t.nextId, [], EffectiveCap(cap)) == s.t.suggestions;
    assert HearAll(s.heard, []) == s.heard;
  }

  /** Two calls are counted and one transmission was heard. */
  ghost predicate CountedTwice(s: State) {
    && CANDIDATE in s.t.suggestions && CANDIDATE in s.heard
    && s.t.suggestions[CANDIDATE].callCount == 2 && |Transmissions(s.t.calls, s.heard[CANDIDATE])| == 1
  }

  /** A call sighted before it is linked to its group is counted again with the
      group's other recording: a run ends with two calls counted and one
      transmission heard. */
  lemma RegroupCountsTwice(cap: int)
    ensures exists n :: Reached(cap, n) && CountedTwice(n)
  {
    SecondFetched(cap);
    var calls := map[1 := Call(5, Some(1)), 2 := Call(5, Some(1))];
    var first, again := FirstSighting(Mention(1, None), 1), Mention(2, Some(1));
    var b := Batch(10, 20, [again]);
    var m := State(Stored(calls, map[CANDIDATE := first], 2, 10), 2, map[0 := b], [Range(0, 10)],
                   map[CANDIDATE := {1}]);
    Extends(cap, m, ApplyBatch(0));
    SingleApply(m, b, again, cap);
    var n := AfterApply(m, 0, cap);
    assert n.t.suggestions[CANDIDATE] == Sighted(first, again, EffectiveCap(cap));
    TwoCallsOneGroup(calls);
    assert n.heard[CANDIDATE] == {1, 2};
  }

  /** Both calls are recordings of group 1. */
  lemma TwoCallsOneGroup(calls: map<nat, Call>)
    requires calls == map[1 := Call(5, Some(1)), 2 := Call(5, Some(1))]
    ensures |Transmissions(calls, {1, 2})| == 1
  {
    assert CallTx(calls, 1) == OfGroup(1) && CallTx(calls, 2) == OfGroup(1);
    assert Transmissions(calls, {1, 2}) == {OfGroup(1)};
  }

  /** The other recording is fetched with its group. */
  lemma SecondFetched(cap: int)
    ensures Reached(cap, State(
              Stored(map[1 := Call(5, Some(1)), 2 := Call(5, Some(1))],
                     map[CANDIDATE := FirstSighting(Mention(1, None), 1)], 2, 10),
              2, map[0 := Batch(10, 20, [Mention(2, Some(1))])], [Range(0, 10)], map[CANDIDATE := {1}]))
  {
    BothLinked(cap);
    var rows := map[CANDIDATE := FirstSighting(Mention(1, None), 1)];
    var n := State(Stored(map[1 := Call(5, Some(1)), 2 := Call(5, Some(1))], rows, 2, 10), 2, map[], [Range(0, 10)],
                   map[CANDIDATE := {1}]);
    var b := Batch(10, 20, [Mention(2, Some(1))]);
    assert forall sg <- b.sightings :: sg == Mention(2, Some(1));
    Extends(cap, n, FetchBatch(0, b));
  }

  // ------------------------------------------------ a merge that counts twice

  const TWIN: CallGroup := CallGroup(6, 9, 0)

  const TWIN_KEY: Key := Key(6, 100, "ENGINE 1")

  const TWIN_MENTION: Sighting := Mention(2, Some(2)).(key := TWIN_KEY)

  /** Two systems with a group each for one transmission. */
  function Twins(calls: map<nat, Call>, rows: Rows, nextId: int, last: int): Tables {
    Tables(map[5 := false, 6 := false], calls, map[1 := GROUP, 2 := TWIN], map[], map[], rows, nextId,
           map[UnitTagSuggestions := last])
  }

  lemma TwinGroups(cap: int)
    ensures Reached(cap, State(Twins(map[], map[], 1, 0), 3, map[], [], map[]))
  {
    var t0 := Tables(map[], map[], map[], map[], map[], map[], 1, map[UnitTagSuggestions := 0]);
    var s0 := State(t0, 1, map[], [], map[]);
    assert Runs(s0, [], cap) && After(s0, [], cap) == s0;
    Extends(cap, s0, NewSystem(5));
    var s1 := State(t0.(deleted := map[5 := false]), 1, map[], [], map[]);
    assert Next(s0, NewSystem(5), cap) == s1;
    Extends(cap, s1, NewSystem(6));
    var s2 := State(t0.(deleted := map[5 := false, 6 := false]), 1, map[], [], map[]);
    assert Next(s1, NewSystem(6), cap) == s2;
    Extends(cap, s2, NewGroup(GROUP));
    var s3 := State(s2.t.(groups := map[1 := GROUP]), 2, map[], [], map[]);
    assert Next(s2, NewGroup(GROUP), cap) == s3;
    Extends(cap, s3, NewGroup(TWIN));
    assert Next(s3, NewGroup(TWIN), cap) == State(Twins(map[], map[], 1, 0), 3, map[], [], map[]);
  }

  const UNLINKED: map<nat, Call> := map[1 := Call(5, None), 2 := Call(6, Some(2))]
  const LINKED: map<nat, Call> := map[1 := Call(5, Some(1)), 2 := Call(6, Some(2))]

  /** Each system has a recording; only the second is linked in time. */
  lemma TwinCalls(cap: int)
    ensures Reached(cap, State(Twins(UNLINKED, map[], 1, 0), 3, map[], [], map[]))
  {
    TwinGroups(cap);
    var s0 := State(Twins(map[], map[], 1, 0), 3, map[], [], map[]);
    Extends(cap, s0, NewCall(1, Call(5, None)));
    var s1 := State(Twins(map[1 := Call(5, None)], map[], 1, 0), 3, map[], [], map[]);
    assert Next(s0, NewCall(1, Call(5, None)), cap) == s1;
    Extends(cap, s1, NewCall(2, Call(6, None)));
    var s2 := State(Twins(map[1 := Call(5, None), 2 := Call(6, None)], map[], 1, 0), 3, map[], [], map[]);
    assert Next(s1, NewCall(2, Call(6, None)), cap) == s2;
    Extends(cap, s2, Regroup(2, 2));
    assert Next(s2, Regroup(2, 2), cap) == State(Twins(UNLINKED, map[], 1, 0), 3, map[], [], map[]);
  }

  /** A sighting is fetched and applied at the cursor. */
  lemma CanSight(cap: int, t: Tables, nextGroup: nat, applied: seq<Range>, heard: map<Key, set<nat>>,
                 last: int, to: int, sg: Sighting)
    requires Reached(cap, State(t, nextGroup, map[], applied, heard))
    requires UnitTagSuggestions in t.cursors && t.cursors[UnitTagSuggestions] == last < to && SeenNow(t, sg)
    ensures Reached(cap, State(
              t.(cursors := t.cursors[UnitTagSuggestions := to], nextId := t.nextId + 1,
                 suggestions := Record(t.suggestions, t.nextId, sg, EffectiveCap(cap))),
              nextGroup, map[], applied + [Range(last, to)], Hear(heard, sg)))
  {
    var b := Batch(last, to, [sg]);
    var n := State(t, nextGroup, map[], applied, heard);
    assert forall x <- b.sightings :: x == sg;
    Extends(cap, n, FetchBatch(0, b));
    var m := State(t, nextGroup, map[0 := b], applied, heard);
    assert Next(n, FetchBatch(0, b), cap) == m;
    SingleApply(m, b, sg, cap);
    Extends(cap, m, ApplyBatch(0));
    assert m.fetched - {0} == map[];
  }

  const TWIN_ROWS: Rows :=
    map[CANDIDATE := FirstSighting(Mention(1, None), 1), TWIN_KEY := FirstSighting(TWIN_MENTION, 2)]

  const FIRST_ROW: Rows := map[CANDIDATE := FirstSighting(Mention(1, None), 1)]

  lemma FirstTwinSighted(cap: int)
    ensures Reached(cap, State(Twins(UNLINKED, FIRST_ROW, 2, 10), 3, map[], [Range(0, 10)], map[CANDIDATE := {1}]))
  {
    TwinCalls(cap);
    CanSight(cap, Twins(UNLINKED, map[], 1, 0), 3, [], map[], 0, 10, Mention(1, None));
    var none: set<nat> := {};
    assert none + {1} == {1};
    assert [] + [Range(0, 10)] == [Range(0, 10)];
  }

  /** Both are sighted. */
  lemma TwinsSighted(cap: int)
    ensures Reached(cap, State(Twins(UNLINKED, TWIN_ROWS, 3, 20), 3, map[], RANGES, TWIN_HEARD))
  {
    FirstTwinSighted(cap);
    CanSight(cap, Twins(UNLINKED, FIRST_ROW, 2, 10), 3, [Range(0, 10)], map[CANDIDATE := {1}], 10, 20, TWIN_MENTION);
    var none: set<nat> := {};
    assert none + {2} == {2};
    assert Hear(map[CANDIDATE := {1}], TWIN_MENTION) == TWIN_HEARD;
    assert [Range(0, 10)] + [Range(10, 20)] == RANGES;
    assert Record(FIRST_ROW, 2, TWIN_MENTION, EffectiveCap(cap)) == TWIN_ROWS;
  }

  const RANGES: seq<Range> := [Range(0, 10), Range(10, 20)]
  const TWIN_HEARD: map<Key, set<nat>> := map[CANDIDATE := {1}, TWIN_KEY := {2}]
  const TWINS: State := State(Twins(LINKED, TWIN_ROWS, 3, 20), 3, map[], RANGES, TWIN_HEARD)

  /** Then the first is linked, */
  lemma TwinsLinked(cap: int)
    ensures Reached(cap, TWINS)
  {
    TwinsSighted(cap);
    var n := State(Twins(UNLINKED, TWIN_ROWS, 3, 20), 3, map[], RANGES, TWIN_HEARD);
    Extends(cap, n, Regroup(1, 1));
    assert UNLINKED[1 := Call(5, Some(1))] == LINKED;
    assert Next(n, Regroup(1, 1), cap) == TWINS;
  }

  /** which leaves both counts right. */
  lemma TwinsRight()
    ensures CountsRight(TWINS)
  {
    assert Transmissions(LINKED, {1}) == {OfGroup(1)} && Transmissions(LINKED, {2}) == {OfGroup(2)};
    assert CountRight(TWINS, CANDIDATE) && CountRight(TWINS, TWIN_KEY);
  }

  /** Folding them takes nothing off, because the first still records no group. */
  lemma TwinsFold()
    ensures Folded(TWIN_ROWS[CANDIDATE], Remapped(TWIN_ROWS[TWIN_KEY], map[2 := 1])).callCount == 2
  {
    var f := Remapped(TWIN_ROWS[TWIN_KEY], map[2 := 1]);
    assert f.evidence == [Entry(2, Some(1), 0, "")];
    assert Duplicates(f.evidence[1..], TWIN_ROWS[CANDIDATE].evidence) == [];
    assert !ClashesAny(f.evidence[0], TWIN_ROWS[CANDIDATE].evidence);
  }

  lemma TwinsConflict()
    ensures Conflicts(map[1 := GROUP, 2 := TWIN], 6, 5) == map[2 := 1]
  {
    var groups := map[1 := GROUP, 2 := TWIN];
    assert Twin(groups, 5, 2, 1);
    assert forall g <- groups, h <- groups :: groups[g] == groups[h] ==> g == h;
    ConflictsAreInjective(groups, 6, 5);
  }

  lemma TwinsMoved()
    ensures MovedCalls(LINKED, 6, 5, map[2 := 1]) == map[1 := Call(5, Some(1)), 2 := Call(5, Some(1))]
  {
  }

  lemma TwinsMerged()
    ensures CountedTwice(AfterMerge(TWINS, 6, 5, 0))
  {
    TwinsConflict();
    TwinsMoved();
    TwinsFold();
    assert KeyOn(6, CANDIDATE) == TWIN_KEY;
    MergedSuggestionsMean(TWIN_ROWS, 6, 5, map[2 := 1], CANDIDATE);
    MergedHeardMeans(TWIN_HEARD, 6, 5, CANDIDATE);
    assert MergedHeard(TWIN_HEARD, 6, 5)[CANDIDATE] == {1, 2};
    TwoCallsOneGroup(AfterMerge(TWINS, 6, 5, 0).t.calls);
  }

  /** A call sighted before it is linked to its group is counted again by a merge
      with the system of the other recording, although every count was right
      until then. */
  lemma MergeCountsTwice(cap: int)
    ensures exists n :: Reached(cap, n) && CountsRight(n) && Enabled(n, MergeTwo(6, 5, 0))
                     && CountedTwice(AfterMerge(n, 6, 5, 0))
  {
    TwinsLinked(cap);
    TwinsRight();
    TwinsMerged();
    TwinsMergeable();
  }

  lemma TwinsMergeable()
    ensures Enabled(TWINS, MergeTwo(6, 5, 0))
  {
  }
}
