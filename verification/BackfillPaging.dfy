/** Keyset paging over the untranscribed calls, newest first
    (internal/database/queries_calls.go:266-337). */
module BackfillPaging {
  import opened Sql

  /** A call in backfill order. */
  datatype Key = Key(startTime: int, callId: int) {
    /** Whether this call is returned before `other`. */
    predicate Before(other: Key) {
      if startTime != other.startTime then startTime > other.startTime else callId > other.callId
    }
  }

  lemma BeforeIsAStrictTotalOrder(a: Key, b: Key, c: Key)
    ensures !(a.Before(b) && b.Before(a))
    ensures a.Before(b) && b.Before(c) ==> a.Before(c)
    ensures a != b <==> a.Before(b) || b.Before(a)
  {
  }

  /** The newest call comes first, and of calls that start together the highest ID. */
  lemma NewestComesFirst(a: Key, b: Key)
    ensures a.startTime > b.startTime ==> a.Before(b)
    ensures a.startTime == b.startTime && a.callId > b.callId ==> a.Before(b)
  {
  }

  /** The query's cursor test: the row comparison and the bound on start_time. */
  predicate PastCursor(cursor: Option<Key>, k: Key) {
    cursor.Some? ==>
      && k.startTime <= cursor.value.startTime
      && (k.startTime < cursor.value.startTime ||
          (k.startTime == cursor.value.startTime && k.callId < cursor.value.callId))
  }

  /** The query and the in-loop guard agree on what is past the cursor. */
  lemma GuardMatchesQuery(c: Key, k: Key)
    ensures PastCursor(Some(c), k) <==> c.Before(k)
  {
  }

  ghost predicate Ascending(keys: seq<Key>) {
    forall i, j :: 0 <= i < j < |keys| ==> keys[i].Before(keys[j])
  }

  predicate IsFirst(k: Key, s: set<Key>) {
    k in s && forall o <- s :: o == k || k.Before(o)
  }

  lemma HasFirst(s: set<Key>)
    requires s != {}
    ensures exists k :: IsFirst(k, s)
    decreases |s|
  {
    var x :| x in s;
    var rest := s - {x};
    assert forall o <- s :: o == x || o in rest;
    if rest == {} {
      assert IsFirst(x, s);
    } else {
      HasFirst(rest);
      var k :| IsFirst(k, rest);
      assert IsFirst(if x.Before(k) then x else k, s);
    }
  }

  function First(s: set<Key>): (k: Key)
    requires s != {}
    ensures IsFirst(k, s)
  {
    HasFirst(s);
    var k :| IsFirst(k, s);
    k
  }

  /** ORDER BY start_time DESC, call_id DESC LIMIT `limit`. */
  function FirstFew(s: set<Key>, limit: nat): seq<Key>
    decreases limit
  {
    if s == {} || limit == 0 then []
    else [First(s)] + FirstFew(s - {First(s)}, limit - 1)
  }

  /** One page: `matching` are the calls the filter selects now. */
  function Page(matching: set<Key>, cursor: Option<Key>, limit: nat): seq<Key> {
    FirstFew((set k <- matching | PastCursor(cursor, k)), limit)
  }

  lemma {:induction false} FirstFewMeans(s: set<Key>, limit: nat)
    ensures var p := FirstFew(s, limit);
            && Ascending(p)
            && |p| <= limit
            && (forall k <- p :: k in s)
            && (forall k <- s :: k in p || (|p| == limit && forall j <- p :: j.Before(k)))
    decreases limit
  {
    if s != {} && limit > 0 {
      var rest, tail := s - {First(s)}, FirstFew(s - {First(s)}, limit - 1);
      FirstFewMeans(rest, limit - 1);
      var p := FirstFew(s, limit);
      forall i, j | 0 <= i < j < |p|
        ensures p[i].Before(p[j])
      {
        assert p[j] == tail[j - 1] && tail[j - 1] in tail;
      }
    }
  }

  /** The keyset contract: a page is in order, every call on it matches and is
      past the cursor, and a matching call past the cursor is missing only from
      a full page, all of which comes before it. */
  lemma PageMeans(matching: set<Key>, cursor: Option<Key>, limit: nat)
    ensures var p := Page(matching, cursor, limit);
            && Ascending(p)
            && |p| <= limit
            && (forall k <- p :: k in matching && PastCursor(cursor, k))
            && (forall k <- matching | PastCursor(cursor, k) ::
                  k in p || (|p| == limit && forall j <- p :: j.Before(k)))
  {
    FirstFewMeans((set k <- matching | PastCursor(cursor, k)), limit);
  }

  lemma {:induction false} AscendingIsUnique(a: seq<Key>, b: seq<Key>)
    requires Ascending(a) && Ascending(b) && forall k :: k in a <==> k in b
    ensures a == b
  {
    assert a == [] || a[0] in a;
    assert b == [] || b[0] in b;
    if a != [] && b != [] {
      assert a[0] == b[0];
      forall k
        ensures k in a[1..] <==> k in b[1..]
      {
        TailMembers(a, k);
        TailMembers(b, k);
      }
      AscendingIsUnique(a[1..], b[1..]);
      assert a == [a[0]] + a[1..] && b == [b[0]] + b[1..];
    }
  }

  lemma TailMembers(a: seq<Key>, k: Key)
    requires a != [] && Ascending(a)
    ensures k in a[1..] <==> k in a && k != a[0]
  {
    if k in a[1..] {
      var i :| 0 <= i < |a| - 1 && a[1..][i] == k;
      assert a[i + 1] == k && a[0].Before(a[i + 1]);
    }
  }
}
