/** The four transactions that write unit tag suggestions, each run under the
    one advisory lock (internal/database/unit_tag_suggestions.go, systems.go).
    A transaction works on copies of the tables it writes and stores them at
    its commit, so an early return is a rollback. */
module SuggestionStore {
  import opened Sql
  import opened SuggestionRows
  import opened SuggestionTables
  import opened MergeStatements
  import opened ArchiveImport

  class Database {
    var deleted: map<nat, bool>
    var calls: map<nat, Call>
    var groups: map<nat, CallGroup>
    var talkgroups: map<RowKey, TalkgroupRow>
    var units: map<RowKey, UnitRow>
    var suggestions: Rows
    var nextId: int
    var cursors: map<CursorName, int>

    ghost function Contents(): Tables
      reads this
    {
      Tables(deleted, calls, groups, talkgroups, units, suggestions, nextId, cursors)
    }

    constructor ()
      ensures Contents() == Tables(map[], map[], map[], map[], map[], map[], 1, map[])
    {
      deleted, calls, groups, talkgroups := map[], map[], map[], map[];
      units, suggestions, nextId, cursors := map[], map[], 1, map[];
    }

    /** Creates the named cursor at 0 if it is missing and returns its position. */
    method EnsureScanCursor(name: CursorName) returns (last: int)
      modifies `cursors
      ensures name in cursors && last == cursors[name]
      ensures cursors == if name in old(cursors) then old(cursors) else old(cursors)[name := 0]
    {
      if name !in cursors {
        cursors := cursors[name := 0];
      }
      last := cursors[name];
    }

    /** Records the sightings and moves the cursor from `fromId` to `toId`, or
        does neither. */
    method ApplyUnitTagSightings(name: CursorName, fromId: int, toId: int, sightings: seq<Sighting>, evidenceCap: int)
      returns (outcome: ApplyOutcome)
      modifies this
      ensures (Contents(), outcome) == Apply(old(Contents()), name, fromId, toId, sightings, evidenceCap)
    {
      var cap := evidenceCap;
      if cap < 1 {
        cap := 1;
      }
      if name !in cursors || cursors[name] != fromId {
        return NotApplied;
      }
      var merged := AnyMerged(Contents(), deleted, sightings);
      if merged {
        return NotApplied;
      }
      var ok, rows, next := RecordSightings(Contents(), deleted, suggestions, nextId, sightings, cap);
      if !ok {
        return ApplyFailed;
      }
      cursors := cursors[name := toId];
      suggestions, nextId := rows, next;
      outcome := Applied;
    }

    /** The suggestion with the given ID, if there is one. */
    method FindSuggestion(id: int) returns (found: Option<Key>)
      requires IdsUnique(Contents())
      ensures found == FindKey(Contents(), id)
    {
      found := None;
      if k :| k in suggestions && suggestions[k].id == id {
        found := Some(k);
      }
    }

    /** Writes a pending suggestion's tag to its unit as a manual tag and marks
        the suggestion approved. */
    method ApproveUnitTagSuggestion(id: int, alphaTag: string, decidedBy: string, now: int)
      returns (outcome: DecideOutcome)
      requires IdsUnique(Contents())
      modifies this
      ensures (Contents(), outcome) == Approve(old(Contents()), id, alphaTag, decidedBy, now)
    {
      var found := FindSuggestion(id);
      if found.None? {
        return NotFound;
      }
      var k := found.value;
      var r := suggestions[k];
      if r.decision.status != Pending {
        return AlreadyDecided(r.decision.status);
      }
      var tag := alphaTag;
      if tag == "" {
        tag := r.proposedTag;
      }
      var u := RowKey(k.system, k.unit);
      if u !in units {
        return UnitNotFound;
      }
      var previous := units[u];
      var alpha := previous.alpha;
      if tag != "" {
        alpha := Some(tag);
      }
      units := units[u := previous.(alpha := alpha, source := Some(Manual))];
      suggestions := suggestions[k := r.(decision :=
        Decision(Approved, Some(tag), previous.alpha, previous.source, Some(now), NullIfEmpty(Some(decidedBy))))];
      outcome := Decided(tag);
    }

    /** Marks a pending suggestion dismissed; the unit is not touched. */
    method DismissUnitTagSuggestion(id: int, decidedBy: string, now: int) returns (outcome: DecideOutcome)
      requires IdsUnique(Contents())
      modifies `suggestions
      ensures (Contents(), outcome) == Dismiss(old(Contents()), id, decidedBy, now)
    {
      var found := FindSuggestion(id);
      if found.None? {
        return NotFound;
      }
      var k := found.value;
      var r := suggestions[k];
      if r.decision.status != Pending {
        return AlreadyDecided(r.decision.status);
      }
      suggestions := suggestions[k := r.(decision := r.decision.(
        status := Dismissed, decidedAt := Some(now), decidedBy := NullIfEmpty(Some(decidedBy))))];
      outcome := Decided("");
    }

    /** Moves everything of the source system to the target system and
        soft-deletes the source. */
    method MergeSystems(src: nat, dst: nat, now: int) returns (merged: bool)
      requires src != dst && GroupsUnique(groups)
      modifies this
      ensures (Contents(), merged) == Merge(old(Contents()), src, dst, now)
    {
      var moved := FindConflicts(groups, src, dst);
      var calls', groups' := MoveCalls(calls, groups, src, dst, moved);
      var talkgroups' := MergeRows(talkgroups, src, dst, (a, b) => CombinedTalkgroup(a, b, now));
      var units' := MergeRows(units, src, dst, (a, b) => CombinedUnit(a, b, now));
      var suggestions' := MergeSuggestions(suggestions, src, dst, moved);
      if dst !in deleted || src !in deleted {
        return false;
      }
      calls, groups, talkgroups, units := calls', groups', talkgroups', units';
      suggestions := suggestions';
      deleted := deleted[src := true];
      merged := true;
    }
  }

  /** SELECT EXISTS over the systems the sightings name. */
  method AnyMerged(ghost t: Tables, deleted: map<nat, bool>, sightings: seq<Sighting>) returns (merged: bool)
    requires t.deleted == deleted
    ensures merged <==> NamesMerged(t, sightings)
  {
    merged := false;
    for i := 0 to |sightings|
      invariant merged <==> NamesMerged(t, sightings[..i])
    {
      assert sightings[..i + 1] == sightings[..i] + [sightings[i]];
      var system := sightings[i].key.system;
      if system in deleted && deleted[system] {
        merged := true;
      }
    }
    assert sightings[..|sightings|] == sightings;
  }

  /** The upserts of one batch, in order, stopping at a foreign key failure. */
  method RecordSightings(ghost t: Tables, deleted: map<nat, bool>, suggestions: Rows, nextId: int,
                         sightings: seq<Sighting>, cap: nat)
    returns (ok: bool, rows: Rows, next: int)
    requires t.deleted == deleted && t.suggestions == suggestions
    ensures ok <==> SystemsExist(t, sightings)
    ensures ok ==> rows == RecordAll(suggestions, nextId, sightings, cap) && next == nextId + |sightings|
  {
    rows, next := suggestions, nextId;
    for i := 0 to |sightings|
      invariant rows == RecordAll(suggestions, nextId, sightings[..i], cap) && next == nextId + i
      invariant SystemsExist(t, sightings[..i])
      invariant forall k <- rows :: k in suggestions || k.system in deleted
      invariant suggestions.Keys <= rows.Keys
    {
      var sg := sightings[i];
      assert sightings[..i + 1] == sightings[..i] + [sg];
      assert sightings[..i + 1][..i] == sightings[..i];
      if sg.key in rows {
        rows := rows[sg.key := Sighted(rows[sg.key], sg, cap)];
      } else if sg.key.system in deleted {
        rows := rows[sg.key := FirstSighting(sg, next)];
      } else {
        assert sg in sightings;
        return false, rows, next;
      }
      next := next + 1;
    }
    assert sightings[..|sightings|] == sightings;
    ok := true;
  }
}
