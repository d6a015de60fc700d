/** The statements of a system merge, one table at a time
    (internal/database/systems.go). */
module MergeStatements {
  import opened Sql
  import opened SuggestionRows
  import opened SuggestionTables
  import opened ArchiveImport

  /** The join that pairs each conflicting source group with its twin. */
  method FindConflicts(groups: map<nat, CallGroup>, src: nat, dst: nat) returns (moved: map<nat, nat>)
    requires src != dst && GroupsUnique(groups)
    ensures moved == Conflicts(groups, src, dst)
  {
    moved := map[];
    var todo := groups.Keys;
    while todo != {}
      invariant todo <= groups.Keys
      invariant forall g :: g in moved <==> g in Conflicts(groups, src, dst) && g !in todo
      invariant forall g <- moved :: moved[g] == Conflicts(groups, src, dst)[g]
    {
      var g :| g in todo;
      if groups[g].system == src {
        if h :| h in groups && groups[h] == groups[g].(system := dst) {
          ConflictOf(groups, src, dst, g, h);
          moved := moved[g := h];
        }
      }
      todo := todo - {g};
    }
    assert moved == Conflicts(groups, src, dst);
  }

  lemma ConflictOf(groups: map<nat, CallGroup>, src: nat, dst: nat, g: nat, h: nat)
    requires src != dst && GroupsUnique(groups)
    requires Twin(groups, dst, g, h) && groups[g].system == src
    ensures g in Conflicts(groups, src, dst) && Conflicts(groups, src, dst)[g] == h
  {
    ConflictsAreInjective(groups, src, dst);
  }

  /** Re-points the source's calls, folds its conflicting groups into their
      twins one at a time, and moves the remaining groups. */
  method MoveCalls(calls: map<nat, Call>, groups: map<nat, CallGroup>, src: nat, dst: nat, moved: map<nat, nat>)
    returns (calls': map<nat, Call>, groups': map<nat, CallGroup>)
    requires src != dst && GroupsUnique(groups) && moved == Conflicts(groups, src, dst)
    ensures calls' == MovedCalls(calls, src, dst, moved)
    ensures groups' == MovedGroups(groups, src, dst, moved)
  {
    MovedByNone(calls, src, dst);
    calls' := map c <- calls :: calls[c].(system := MovedSystem(calls[c].system, src, dst));
    groups' := groups;
    var todo := moved.Keys;
    assert moved - todo == map[] && groups - (moved.Keys - todo) == groups;
    while todo != {}
      invariant todo <= moved.Keys
      invariant calls' == MovedCalls(calls, src, dst, moved - todo)
      invariant groups' == groups - (moved.Keys - todo)
    {
      var g :| g in todo;
      MovedCallsStep(calls, groups, src, dst, moved, todo, g);
      calls' := Reassigned(calls', g, moved[g]);
      groups' := groups' - {g};
      todo := todo - {g};
    }
    assert moved - todo == moved && moved.Keys - todo == moved.Keys;
    groups' := Resystemed(groups', src, dst);
    MovedGroupsAre(groups, src, dst, moved);
  }

  /** UPDATE call_groups SET system_id = dst WHERE system_id = src. */
  function Resystemed(groups: map<nat, CallGroup>, src: nat, dst: nat): map<nat, CallGroup> {
    map g <- groups :: groups[g].(system := MovedSystem(groups[g].system, src, dst))
  }

  lemma MovedGroupsAre(groups: map<nat, CallGroup>, src: nat, dst: nat, moved: map<nat, nat>)
    ensures Resystemed(groups - moved.Keys, src, dst) == MovedGroups(groups, src, dst, moved)
  {
  }

  lemma MovedByNone(calls: map<nat, Call>, src: nat, dst: nat)
    ensures (map c <- calls :: calls[c].(system := MovedSystem(calls[c].system, src, dst))) ==
            MovedCalls(calls, src, dst, map[])
  {
    assert forall c <- calls :: Regrouped(calls[c].group, map[]) == calls[c].group;
  }

  /** UPDATE calls SET call_group_id = h WHERE call_group_id = g. */
  function Reassigned(calls: map<nat, Call>, g: nat, h: nat): map<nat, Call> {
    map c <- calls :: if calls[c].group == Some(g) then calls[c].(group := Some(h)) else calls[c]
  }

  /** Folding one more group after others is folding all of them at once. */
  lemma MovedCallsStep(calls: map<nat, Call>, groups: map<nat, CallGroup>, src: nat, dst: nat, moved: map<nat, nat>,
                       todo: set<nat>, g: nat)
    requires src != dst && GroupsUnique(groups) && moved == Conflicts(groups, src, dst)
    requires todo <= moved.Keys && g in todo
    ensures Reassigned(MovedCalls(calls, src, dst, moved - todo), g, moved[g]) ==
            MovedCalls(calls, src, dst, moved - (todo - {g}))
    ensures groups - (moved.Keys - todo) - {g} == groups - (moved.Keys - (todo - {g}))
  {
    ConflictsAreInjective(groups, src, dst);
    var one := Reassigned(MovedCalls(calls, src, dst, moved - todo), g, moved[g]);
    var two := MovedCalls(calls, src, dst, moved - (todo - {g}));
    assert one.Keys == two.Keys;
    assert forall c <- calls :: one[c] == two[c];
    assert moved.Keys - (todo - {g}) == moved.Keys - todo + {g};
  }

  /** Upserts every source row into the target, then deletes the source rows. */
  method MergeRows<R>(rows: map<RowKey, R>, src: nat, dst: nat, combine: (Option<R>, R) -> R)
    returns (merged: map<RowKey, R>)
    requires src != dst
    ensures merged == MergedTable(rows, src, dst, combine)
  {
    merged := rows;
    var todo := set k <- rows | k.system == src :: k;
    while todo != {}
      invariant todo <= rows.Keys && forall k <- todo :: k.system == src
      invariant forall k: RowKey :: k in merged <==>
                  k in rows || (k.system == dst && RowKey(src, k.id) in rows && RowKey(src, k.id) !in todo)
      invariant forall k: RowKey :: k in merged ==>
                  merged[k] == if k.system == dst && RowKey(src, k.id) in rows && RowKey(src, k.id) !in todo
                               then combine(Lookup(rows, k), rows[RowKey(src, k.id)]) else rows[k]
    {
      var s :| s in todo;
      var k := RowKey(dst, s.id);
      assert s == RowKey(src, k.id);
      assert Lookup(merged, k) == Lookup(rows, k);
      merged := merged[k := combine(Lookup(merged, k), rows[s])];
      todo := todo - {s};
    }
    merged := map k <- merged | k.system != src :: merged[k];
    forall k: RowKey
      ensures k in merged <==> k in MergedTable(rows, src, dst, combine)
      ensures k in merged ==> merged[k] == MergedTable(rows, src, dst, combine)[k]
    {
      MergedTableMeans(rows, src, dst, combine, k);
    }
    assert merged == MergedTable(rows, src, dst, combine);
  }

  /** The four statements on unit_tag_suggestions, in order: point the source's
      evidence at the groups its calls now have, fold the source's rows into
      the target's, delete the folded rows, move the rest. */
  method MergeSuggestions(rows: Rows, src: nat, dst: nat, moved: map<nat, nat>) returns (merged: Rows)
    requires src != dst
    ensures merged == MergedSuggestions(rows, src, dst, moved)
  {
    merged := RemapEvidence(rows, src, moved);
    merged := FoldRows(merged, src, dst);
    merged := DeleteFolded(merged, src, dst);
    merged := Repointed(merged, src, dst);
    StatementsMakeTheMerge(rows, src, dst, moved);
  }

  function RemapEvidence(rows: Rows, src: nat, moved: map<nat, nat>): Rows {
    map k <- rows :: if k.system == src then Remapped(rows[k], moved) else rows[k]
  }

  function FoldRows(rows: Rows, src: nat, dst: nat): Rows {
    map k <- rows ::
      if k.system == dst && KeyOn(src, k) in rows then Folded(rows[k], rows[KeyOn(src, k)]) else rows[k]
  }

  function DeleteFolded(rows: Rows, src: nat, dst: nat): Rows {
    map k <- rows | !(k.system == src && KeyOn(dst, k) in rows) :: rows[k]
  }

  /** What the three statements before the last leave under a target key and
      under the source key of the same candidate. */
  lemma StatementsMean(rows: Rows, src: nat, dst: nat, moved: map<nat, nat>, k: Key)
    requires src != dst
    ensures var kept := DeleteFolded(FoldRows(RemapEvidence(rows, src, moved), src, dst), src, dst);
            && (k.system != src ==> (k in kept <==> k in rows))
            && (k.system != src && k in rows ==>
                  kept[k] == if k.system == dst && KeyOn(src, k) in rows
                             then Folded(rows[k], Remapped(rows[KeyOn(src, k)], moved)) else rows[k])
            && (k.system == dst ==> (KeyOn(src, k) in kept <==> KeyOn(src, k) in rows && k !in rows))
            && (k.system == dst && KeyOn(src, k) in kept ==>
                  kept[KeyOn(src, k)] == Remapped(rows[KeyOn(src, k)], moved))
  {
    if k.system == dst {
      assert KeyOn(dst, KeyOn(src, k)) == k;
    }
  }

  lemma StatementsMakeTheMerge(rows: Rows, src: nat, dst: nat, moved: map<nat, nat>)
    requires src != dst
    ensures Repointed(DeleteFolded(FoldRows(RemapEvidence(rows, src, moved), src, dst), src, dst), src, dst) ==
            MergedSuggestions(rows, src, dst, moved)
  {
    var kept := DeleteFolded(FoldRows(RemapEvidence(rows, src, moved), src, dst), src, dst);
    var one, two := Repointed(kept, src, dst), MergedSuggestions(rows, src, dst, moved);
    forall k
      ensures k in one <==> k in two
      ensures k in one ==> one[k] == two[k]
    {
      StatementsMean(rows, src, dst, moved, k);
      RepointedMean(kept, src, dst, k);
      MergedSuggestionsMean(rows, src, dst, moved, k);
    }
    assert one == two;
  }

  /** UPDATE ... SET system_id = dst WHERE system_id = src. */
  function Repointed(rows: Rows, src: nat, dst: nat): Rows {
    map k | k in rows.Keys + (set l <- rows | l.system == src :: KeyOn(dst, l)) && k.system != src
            && (k in rows || KeyOn(src, k) in rows) ::
      if k in rows then rows[k] else rows[KeyOn(src, k)]
  }

  lemma RepointedMean(rows: Rows, src: nat, dst: nat, k: Key)
    requires src != dst
    ensures k in Repointed(rows, src, dst) <==>
            k.system != src && (k in rows || (k.system == dst && KeyOn(src, k) in rows))
    ensures k in Repointed(rows, src, dst) ==>
              Repointed(rows, src, dst)[k] == if k in rows then rows[k] else rows[KeyOn(src, k)]
  {
    if k.system == dst && KeyOn(src, k) in rows {
      assert KeyOn(dst, KeyOn(src, k)) == k;
      assert k in set l <- rows | l.system == src :: KeyOn(dst, l);
    }
    if l :| l in rows && l.system == src && KeyOn(dst, l) == k {
      assert KeyOn(src, k) == l;
    }
  }
}
