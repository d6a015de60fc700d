/** The capped evidence list of a unit tag suggestion: its newest-first order
    and the two ways in which entries are the same transmission
    (internal/database/unit_tag_suggestions.go and systems.go). */
module Evidence {
  import opened Sql

  /** One call in which the unit identified itself. `group` is absent when the
      call has no call group; `details` stands for the columns that are only
      displayed. */
  datatype Entry = Entry(callId: nat, group: Option<nat>, at: int, details: string)

  // ------------------------------------------------------- the SQL ordering

  function InsertNewest(e: Entry, xs: seq<Entry>): seq<Entry> {
    if xs == [] || xs[0].at <= e.at then [e] + xs else [xs[0]] + InsertNewest(e, xs[1..])
  }

  /** ORDER BY call_start_time DESC, ordinality. */
  function NewestFirst(xs: seq<Entry>): seq<Entry> {
    if xs == [] then [] else InsertNewest(xs[0], NewestFirst(xs[1..]))
  }

  function Take(xs: seq<Entry>, n: nat): seq<Entry> {
    if n < |xs| then xs[..n] else xs
  }

  /** The same ordering with LIMIT n. */
  function Newest(xs: seq<Entry>, n: nat): seq<Entry> {
    Take(NewestFirst(xs), n)
  }

  ghost predicate Sorted(xs: seq<Entry>) {
    forall i, j :: 0 <= i < j < |xs| ==> xs[i].at >= xs[j].at
  }

  function At(xs: seq<Entry>, t: int): seq<Entry> {
    if xs == [] then [] else (if xs[0].at == t then [xs[0]] else []) + At(xs[1..], t)
  }

  lemma {:induction false} InsertNewestSorts(e: Entry, xs: seq<Entry>)
    requires Sorted(xs)
    ensures Sorted(InsertNewest(e, xs)) && |InsertNewest(e, xs)| == |xs| + 1
    ensures forall i :: 0 <= i <= |xs| ==> InsertNewest(e, xs)[i] == e || InsertNewest(e, xs)[i] in xs
  {
    if xs != [] && xs[0].at > e.at {
      var rest := InsertNewest(e, xs[1..]);
      InsertNewestSorts(e, xs[1..]);
      forall i | 0 <= i < |rest|
        ensures rest[i].at <= xs[0].at && (rest[i] == e || rest[i] in xs)
      {
        if rest[i] != e {
          var j :| 0 <= j < |xs[1..]| && xs[1..][j] == rest[i];
          assert xs[j + 1] == rest[i];
        }
      }
    }
  }

  lemma {:induction false} InsertNewestKeepsAll(e: Entry, xs: seq<Entry>)
    ensures multiset(InsertNewest(e, xs)) == multiset(xs) + multiset{e}
  {
    if xs != [] && xs[0].at > e.at {
      InsertNewestKeepsAll(e, xs[1..]);
      assert xs == [xs[0]] + xs[1..];
    }
  }

  lemma {:induction false} InsertNewestIsStable(e: Entry, xs: seq<Entry>, t: int)
    ensures At(InsertNewest(e, xs), t) == (if e.at == t then [e] else []) + At(xs, t)
  {
    if xs == [] || xs[0].at <= e.at {
      assert ([e] + xs)[1..] == xs;
    } else {
      var rest := InsertNewest(e, xs[1..]);
      assert ([xs[0]] + rest)[1..] == rest;
      InsertNewestIsStable(e, xs[1..], t);
      if e.at == t {
        assert At(xs, t) == At(xs[1..], t);
      } else {
        assert At(rest, t) == At(xs[1..], t);
      }
    }
  }

  /** The list is what the ORDER BY clause asks for: newest first, a
      rearrangement of the entries, those of one time in their original order. */
  lemma {:induction false} NewestFirstSorts(xs: seq<Entry>)
    ensures Sorted(NewestFirst(xs))
    ensures |NewestFirst(xs)| == |xs| && multiset(NewestFirst(xs)) == multiset(xs)
  {
    if xs != [] {
      assert xs == [xs[0]] + xs[1..];
      NewestFirstSorts(xs[1..]);
      InsertNewestKeepsAll(xs[0], NewestFirst(xs[1..]));
      InsertNewestSorts(xs[0], NewestFirst(xs[1..]));
    }
  }

  lemma {:induction false} NewestFirstIsStable(xs: seq<Entry>, t: int)
    ensures At(NewestFirst(xs), t) == At(xs, t)
  {
    if xs != [] {
      NewestFirstIsStable(xs[1..], t);
      InsertNewestIsStable(xs[0], NewestFirst(xs[1..]), t);
    }
  }

  lemma {:induction false} AtMembers(xs: seq<Entry>, e: Entry)
    ensures e in At(xs, e.at) <==> e in xs
  {
    if xs != [] {
      AtMembers(xs[1..], e);
      assert xs == [xs[0]] + xs[1..];
    }
  }

  lemma NewestFirstMembers(xs: seq<Entry>, e: Entry)
    ensures e in NewestFirst(xs) <==> e in xs
  {
    NewestFirstIsStable(xs, e.at);
    AtMembers(NewestFirst(xs), e);
    AtMembers(xs, e);
  }

  // ------------------------------------------------ one entry a transmission

  /** The same call, or two sites' recordings of one call group. */
  predicate Clash(x: Entry, y: Entry) {
    x.callId == y.callId || (x.group.Some? && x.group == y.group)
  }

  predicate ClashesAny(x: Entry, ys: seq<Entry>) {
    exists y <- ys :: Clash(x, y)
  }

  ghost predicate Apart(xs: seq<Entry>) {
    forall i, j :: 0 <= i < j < |xs| ==> !Clash(xs[i], xs[j])
  }

  lemma ApartCons(x: Entry, rest: seq<Entry>)
    ensures Apart([x] + rest) <==> Apart(rest) && !ClashesAny(x, rest)
  {
    var xs := [x] + rest;
    if Apart(xs) {
      forall y <- rest
        ensures !Clash(x, y)
      {
        var m :| 0 <= m < |rest| && rest[m] == y;
        assert xs[0] == x && xs[m + 1] == y;
      }
      forall i, j | 0 <= i < j < |rest|
        ensures !Clash(rest[i], rest[j])
      {
        assert xs[i + 1] == rest[i] && xs[j + 1] == rest[j];
      }
    }
  }

  /** The transmission an entry stands for. */
  datatype Transmission = OfGroup(group: nat) | OfCall(callId: nat)

  function Tx(callId: nat, group: Option<nat>): Transmission {
    if group.Some? then OfGroup(group.value) else OfCall(callId)
  }

  function TxOf(e: Entry): Transmission {
    Tx(e.callId, e.group)
  }

  ghost function TxSet(xs: seq<Entry>): set<Transmission> {
    set x <- xs :: TxOf(x)
  }

  lemma {:induction false} InsertKeepsApart(e: Entry, xs: seq<Entry>)
    requires Apart(xs) && !ClashesAny(e, xs)
    ensures Apart(InsertNewest(e, xs))
    ensures forall x :: x in InsertNewest(e, xs) <==> x == e || x in xs
  {
    if xs == [] || xs[0].at <= e.at {
      ApartCons(e, xs);
    } else {
      var rest := InsertNewest(e, xs[1..]);
      assert xs == [xs[0]] + xs[1..];
      ApartCons(xs[0], xs[1..]);
      InsertKeepsApart(e, xs[1..]);
      assert Clash(e, xs[0]) == Clash(xs[0], e);
      ApartCons(xs[0], rest);
    }
  }

  lemma {:induction false} NewestFirstKeepsApart(xs: seq<Entry>)
    requires Apart(xs)
    ensures Apart(NewestFirst(xs))
  {
    if xs != [] {
      assert xs == [xs[0]] + xs[1..];
      ApartCons(xs[0], xs[1..]);
      NewestFirstKeepsApart(xs[1..]);
      forall y <- NewestFirst(xs[1..])
        ensures y in xs[1..]
      {
        NewestFirstMembers(xs[1..], y);
      }
      InsertKeepsApart(xs[0], NewestFirst(xs[1..]));
    }
  }

  /** What the cut list keeps of the whole: order, separation, size, and every
      entry as long as nothing is cut off. */
  lemma NewestKeeps(xs: seq<Entry>, n: nat)
    requires Apart(xs)
    ensures Sorted(Newest(xs, n)) && Apart(Newest(xs, n))
    ensures |Newest(xs, n)| == if n < |xs| then n else |xs|
    ensures forall e <- Newest(xs, n) :: e in xs
    ensures |xs| <= n ==> forall e <- xs :: e in Newest(xs, n)
  {
    NewestFirstSorts(xs);
    NewestFirstKeepsApart(xs);
    forall e
      ensures e in NewestFirst(xs) <==> e in xs
    {
      NewestFirstMembers(xs, e);
    }
  }

  /** An entry cut off is no newer than any entry kept. */
  lemma CutEntriesAreOldest(xs: seq<Entry>, n: nat, cut: Entry, kept: Entry)
    requires Apart(xs)
    requires cut in xs && cut !in Newest(xs, n) && kept in Newest(xs, n)
    ensures cut.at <= kept.at
  {
    NewestFirstSorts(xs);
    NewestFirstMembers(xs, cut);
    NewestFirstMembers(xs, kept);
    var all := NewestFirst(xs);
    var i :| 0 <= i < |all| && all[i] == cut;
    if n < |all| {
      var front := all[..n];
      var j :| 0 <= j < |front| && front[j] == kept;
      assert all[j] == kept;
      assert n <= i by {
        forall k | 0 <= k < n
          ensures all[k] != cut
        {
          assert front[k] in front;
        }
      }
    }
  }

  /** Separated entries stand for different transmissions. */
  lemma {:induction false} ApartCountsTransmissions(xs: seq<Entry>)
    requires Apart(xs)
    ensures |TxSet(xs)| == |xs|
  {
    if xs != [] {
      var x, tail := xs[0], xs[1..];
      assert xs == [x] + tail;
      ApartCons(x, tail);
      ApartCountsTransmissions(tail);
      assert forall y <- tail :: !Clash(x, y) && TxOf(x) != TxOf(y);
      assert TxSet(xs) == {TxOf(x)} + TxSet(tail);
      assert TxOf(x) !in TxSet(tail);
    }
  }

  lemma SubsetSize<T>(a: set<T>, b: set<T>)
    requires a <= b
    ensures |a| <= |b|
    ensures |a| == |b| ==> a == b
  {
    assert b == a + (b - a);
    assert |b| == |a| + |b - a|;
  }

  // ------------------------------------------ splitting off the duplicates

  function Duplicates(xs: seq<Entry>, held: seq<Entry>): seq<Entry> {
    if xs == [] then []
    else (if ClashesAny(xs[0], held) then [xs[0]] else []) + Duplicates(xs[1..], held)
  }

  function Fresh(xs: seq<Entry>, held: seq<Entry>): seq<Entry> {
    if xs == [] then []
    else (if ClashesAny(xs[0], held) then [] else [xs[0]]) + Fresh(xs[1..], held)
  }

  lemma {:induction false} SplitMembers(xs: seq<Entry>, held: seq<Entry>)
    ensures |Duplicates(xs, held)| + |Fresh(xs, held)| == |xs|
    ensures forall x :: x in Duplicates(xs, held) <==> x in xs && ClashesAny(x, held)
    ensures forall x :: x in Fresh(xs, held) <==> x in xs && !ClashesAny(x, held)
  {
    if xs != [] {
      SplitMembers(xs[1..], held);
      assert xs == [xs[0]] + xs[1..];
    }
  }

  lemma {:induction false} SplitKeepsApart(xs: seq<Entry>, held: seq<Entry>)
    requires Apart(xs)
    ensures Apart(Duplicates(xs, held)) && Apart(Fresh(xs, held))
  {
    if xs != [] {
      assert xs == [xs[0]] + xs[1..];
      ApartCons(xs[0], xs[1..]);
      SplitKeepsApart(xs[1..], held);
      SplitMembers(xs[1..], held);
      ApartCons(xs[0], Duplicates(xs[1..], held));
      ApartCons(xs[0], Fresh(xs[1..], held));
    }
  }

  /** The held list followed by the fresh entries is still one a transmission. */
  lemma FreshJoinsApart(held: seq<Entry>, xs: seq<Entry>)
    requires Apart(held) && Apart(xs)
    ensures Apart(held + Fresh(xs, held))
  {
    var news := Fresh(xs, held);
    SplitKeepsApart(xs, held);
    SplitMembers(xs, held);
    forall i, j | 0 <= i < |held| && 0 <= j < |news|
      ensures !Clash(held[i], news[j])
    {
      assert news[j] in news && held[i] in held;
      assert Clash(held[i], news[j]) == Clash(news[j], held[i]);
    }
  }

  /** Both lists record the same group for the same call. */
  ghost predicate Agree(xs: seq<Entry>, ys: seq<Entry>) {
    forall x <- xs, y <- ys :: x.callId == y.callId ==> x.group == y.group
  }

  /** Under agreement a duplicate is exactly an entry whose transmission the
      held list has, and the duplicates inject into that list. */
  lemma DuplicatesInject(xs: seq<Entry>, held: seq<Entry>)
    requires Apart(xs) && Apart(held) && Agree(xs, held)
    ensures forall x <- Duplicates(xs, held) :: TxOf(x) in TxSet(held)
    ensures |Duplicates(xs, held)| <= |held|
  {
    var dups := Duplicates(xs, held);
    SplitMembers(xs, held);
    SplitKeepsApart(xs, held);
    forall x <- dups
      ensures TxOf(x) in TxSet(held)
    {
      var y :| y in held && Clash(x, y);
      assert TxOf(x) == TxOf(y);
    }
    assert TxSet(dups) <= TxSet(held);
    SubsetSize(TxSet(dups), TxSet(held));
    ApartCountsTransmissions(dups);
    ApartCountsTransmissions(held);
  }

  /** Without agreement the injection fails: two separated entries can both be
      duplicates of one held entry, one by call and one by group. */
  lemma DuplicatesNeedAgreement()
    ensures var held := [Entry(1, Some(7), 0, "")];
            var xs := [Entry(1, None, 0, ""), Entry(2, Some(7), 0, "")];
            Apart(xs) && Apart(held) && !Agree(xs, held) && |Duplicates(xs, held)| > |held|
  {
    var held := [Entry(1, Some(7), 0, "")];
    var x, y := Entry(1, None, 0, ""), Entry(2, Some(7), 0, "");
    assert held[0] in held && Clash(x, held[0]) && Clash(y, held[0]);
    assert [x, y][1..] == [y] && [y][1..] == [];
    assert Duplicates([y], held) == [y] + Duplicates([], held);
    assert Duplicates([x, y], held) == [x] + Duplicates([y], held);
    assert x in [x, y];
  }
}
