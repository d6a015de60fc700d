/** The transaction that stores a transcription: the scanner's writer
    (internal/database/transcriptions.go:164-242, sql/queries/transcriptions.sql). */
module Transcriptions {
  import opened Sql

  datatype CallKey = CallKey(callId: nat, startTime: int)

  datatype Source = Auto | Human | Llm | OtherSource(name: string)

  /** The statuses the table constraint allows, and any other text. */
  datatype Status = NoStatus | AutoDone | Reviewed | Verified | Excluded | NoSpeech | OtherStatus(source: Source)

  datatype Transcription = Transcription(call: CallKey, text: string, source: Source, primary: bool, words: int)

  /** The transcription columns of a call, and its group. */
  datatype Call = Call(group: Option<nat>, has: bool, status: Status, text: Text, words: Option<int>)

  datatype CallGroup = CallGroup(text: Text, status: Status)

  datatype Tables = Tables(
    transcriptions: map<nat, Transcription>, calls: map<CallKey, Call>, groups: map<nat, CallGroup>, nextId: nat)

  function StatusOf(source: Source): Status {
    match source
    case Human => Verified
    case Auto => AutoDone
    case _ => OtherStatus(source)
  }

  predicate IsPrimaryOf(ts: map<nat, Transcription>, id: nat, call: CallKey) {
    id in ts && ts[id].call == call && ts[id].primary
  }

  /** UPDATE transcriptions SET is_primary = false, for the rows `ids`. */
  function Unprimed(ts: map<nat, Transcription>, ids: set<nat>): map<nat, Transcription> {
    map id <- ts :: if id in ids then ts[id].(primary := false) else ts[id]
  }

  function PrimariesOf(ts: map<nat, Transcription>, call: CallKey): set<nat> {
    set id <- ts | IsPrimaryOf(ts, id, call) :: id
  }

  /** What the constraints let through: a known source, an existing call, and,
      for a primary row, a source whose status the calls table takes. */
  predicate Accepted(t: Tables, row: Transcription) {
    && !row.source.OtherSource? && row.call in t.calls
    && (row.primary ==> !StatusOf(row.source).OtherStatus?)
  }

  function MarkedCall(c: Call, row: Transcription): Call {
    c.(has := true, status := StatusOf(row.source), text := Some(row.text), words := Some(row.words))
  }

  function MarkedGroups(groups: map<nat, CallGroup>, c: Call, row: Transcription): map<nat, CallGroup> {
    if c.group.Some? && c.group.value in groups
    then groups[c.group.value := CallGroup(Some(row.text), StatusOf(row.source))] else groups
  }

  /** The committed transaction, having cleared the rows `cleared`. */
  function Stored(t: Tables, row: Transcription, cleared: set<nat>): Tables
    requires row.call in t.calls
  {
    var ts := Unprimed(t.transcriptions, if row.primary then cleared else {});
    var n := t.(transcriptions := ts[t.nextId := row], nextId := t.nextId + 1);
    if row.primary
    then n.(calls := t.calls[row.call := MarkedCall(t.calls[row.call], row)],
            groups := MarkedGroups(t.groups, t.calls[row.call], row))
    else n
  }

  // ---------------------------------------------------------------- invariant

  ghost predicate OnePrimary(ts: map<nat, Transcription>) {
    forall a <- ts, b <- ts :: ts[a].primary && ts[b].primary && ts[a].call == ts[b].call ==> a == b
  }

  /** A call's columns repeat its primary transcription. */
  ghost predicate CallsAgree(t: Tables) {
    forall id <- t.transcriptions :: t.transcriptions[id].primary ==>
      var r := t.transcriptions[id];
      r.call in t.calls && Shows(t.calls[r.call], r)
  }

  /** The call's columns repeat the row; its status says who wrote it. */
  predicate Shows(c: Call, r: Transcription) {
    && c.has && c.text == Some(r.text) && c.words == Some(r.words)
    && (r.source == Human ==> c.status == Verified)
    && (r.source == Auto ==> c.status == AutoDone)
  }

  /** What the constraints let through: any row of a known call that is not
      primary, and a primary one a person or the transcriber wrote. */
  lemma AcceptedIff(t: Tables, row: Transcription)
    ensures Accepted(t, row) <==>
            row.call in t.calls
            && (row.source == Auto || row.source == Human || (row.source == Llm && !row.primary))
  {
  }

  /** What one store writes: the row under its ID, with the cleared rows no longer
      primary; and if it is primary, to its call and the call's group. All else
      stays. */
  lemma StoreWrites(t: Tables, row: Transcription, cleared: set<nat>)
    requires Accepted(t, row) && t.nextId !in t.transcriptions
    ensures var n := Stored(t, row, cleared);
            && n.nextId == t.nextId + 1
            && n.transcriptions.Keys == t.transcriptions.Keys + {t.nextId} && n.transcriptions[t.nextId] == row
            && (forall id <- t.transcriptions :: var r := t.transcriptions[id];
                  n.transcriptions[id] == if row.primary && id in cleared then r.(primary := false) else r)
            && (!row.primary ==> n.calls == t.calls && n.groups == t.groups)
            && (row.primary ==>
                  && n.calls == t.calls[row.call := n.calls[row.call]]
                  && Shows(n.calls[row.call], row) && n.calls[row.call].group == t.calls[row.call].group
                  && GroupShows(t, n, t.calls[row.call].group, row, n.calls[row.call].status))
  {
  }

  ghost predicate GroupShows(t: Tables, n: Tables, group: Option<nat>, row: Transcription, status: Status) {
    if group.Some? && group.value in t.groups
    then n.groups == t.groups[group.value := CallGroup(Some(row.text), status)]
    else n.groups == t.groups
  }

  ghost predicate Inv(t: Tables) {
    && OnePrimary(t.transcriptions) && CallsAgree(t)
    && forall id <- t.transcriptions :: id < t.nextId
  }

  /** Stored alone, a transcription leaves its call one primary at most, and the
      call shows that one. */
  lemma StoringKeepsInv(t: Tables, row: Transcription)
    requires Inv(t) && Accepted(t, row)
    ensures Inv(Stored(t, row, PrimariesOf(t.transcriptions, row.call)))
  {
    var cleared := PrimariesOf(t.transcriptions, row.call);
    var n := Stored(t, row, cleared);
    forall id <- n.transcriptions | n.transcriptions[id].primary && id != t.nextId
      ensures id in t.transcriptions && n.transcriptions[id] == t.transcriptions[id]
      ensures row.primary ==> n.transcriptions[id].call != row.call
    {
      assert IsPrimaryOf(t.transcriptions, id, row.call) <==> id in cleared;
    }
  }

  function StoreAll(t: Tables, rows: seq<Transcription>): Tables {
    if rows == [] then t
    else
      var m := StoreAll(t, rows[..|rows| - 1]);
      var row := rows[|rows| - 1];
      if Accepted(m, row) then Stored(m, row, PrimariesOf(m.transcriptions, row.call)) else m
  }

  /** One after another, any transcriptions do; OverlappingStores is what they do
      otherwise. */
  lemma {:induction false} SerialStoresKeepInv(t: Tables, rows: seq<Transcription>)
    requires Inv(t)
    ensures Inv(StoreAll(t, rows))
  {
    if rows != [] {
      SerialStoresKeepInv(t, rows[..|rows| - 1]);
      var m, row := StoreAll(t, rows[..|rows| - 1]), rows[|rows| - 1];
      if Accepted(m, row) {
        StoringKeepsInv(m, row);
      }
    }
  }

  // --------------------------------------------------------------------- class

  class TranscriptionStore {
    var transcriptions: map<nat, Transcription>
    var calls: map<CallKey, Call>
    var groups: map<nat, CallGroup>
    var nextId: nat

    ghost function Contents(): Tables
      reads this
    {
      Tables(transcriptions, calls, groups, nextId)
    }

    constructor ()
      ensures Contents() == Tables(map[], map[], map[], 1)
    {
      transcriptions, calls, groups, nextId := map[], map[], map[], 1;
    }

    /** The statements in order; a constraint that fails rolls all of them back,
        except that the ID it drew is gone. */
    method InsertTranscription(row: Transcription) returns (id: Option<nat>)
      modifies this
      ensures id.Some? <==> Accepted(old(Contents()), row)
      ensures id.Some? ==> id.value == old(nextId)
      ensures id.Some? ==> Contents() == Stored(old(Contents()), row, PrimariesOf(old(transcriptions), row.call))
      ensures id.None? ==> Contents() == old(Contents()).(nextId := nextId) && nextId == old(nextId) + 1
    {
      var before := transcriptions;
      var cleared := PrimariesOf(transcriptions, row.call);
      transcriptions := Unprimed(transcriptions, if row.primary then cleared else {});
      var drawn := nextId;
      nextId := nextId + 1;
      if row.source.OtherSource? || row.call !in calls {
        transcriptions := before;
        return None;
      }
      transcriptions := transcriptions[drawn := row];
      if row.primary {
        var status := if row.source == Human then Verified else StatusOf(row.source);
        if status.OtherStatus? {
          transcriptions := before;
          return None;
        }
        var c := calls[row.call];
        calls := calls[row.call := c.(has := true, status := status, text := Some(row.text), words := Some(row.words))];
        if c.group.Some? && c.group.value in groups {
          groups := groups[c.group.value := CallGroup(Some(row.text), status)];
        }
      }
      id := Some(drawn);
    }
  }
}
