/** The prize report of `getResult`: the stored result rows in tier order,
    grouped by tier, each tier's tickets cut to the part the tier reports,
    limited to the tier's ticket count, padded to ten entries and
    de-duplicated. The admin and the user controller carry the same code. */
module ResultFormat {
  import opened Wrappers
  import opened Text
  import opened Prizes
  import Seqs

  // ---------------------------------------------------------------------
  // Row order

  /** The rows of tier `c`, in store order. */
  function RowsOf(rows: seq<ResultRow>, c: Category): (r: seq<ResultRow>)
    ensures |r| <= |rows|
    decreases |rows|
  {
    if rows == [] then []
    else
      var last := rows[|rows| - 1];
      if last.category == c then RowsOf(rows[..|rows| - 1], c) + [last] else RowsOf(rows[..|rows| - 1], c)
  }

  /** A row is selected exactly when it is a row of the tier. */
  lemma {:induction false} RowsOfMember(rows: seq<ResultRow>, c: Category, x: ResultRow)
    ensures x in RowsOf(rows, c) <==> x in rows && x.category == c
    decreases |rows|
  {
    if rows != [] {
      var init := rows[..|rows| - 1];
      RowsOfMember(init, c, x);
      assert rows == init + [rows[|rows| - 1]];
    }
  }

  /** The rows of the tiers `cs`, tier after tier. */
  function Arrange(rows: seq<ResultRow>, cs: seq<Category>): seq<ResultRow>
    decreases |cs|
  {
    if cs == [] then [] else RowsOf(rows, cs[0]) + Arrange(rows, cs[1..])
  }

  /** `ORDER BY prizeCategory ASC`: an enum column sorts by declaration
      order, First to Fifth; rows of one tier keep their store order. */
  function ByCategory(rows: seq<ResultRow>): seq<ResultRow>
  {
    Arrange(rows, AllCategories)
  }

  predicate SortedByRank(rows: seq<ResultRow>)
  {
    forall i, j :: 0 <= i < j < |rows| ==> Rank(rows[i].category) <= Rank(rows[j].category)
  }

  lemma RowsOfSnoc(rows: seq<ResultRow>, x: ResultRow, c: Category)
    ensures RowsOf(rows + [x], c) == RowsOf(rows, c) + (if x.category == c then [x] else [])
  {
    assert (rows + [x])[..|rows|] == rows;
  }

  lemma NoDuplicatesTail(cs: seq<Category>)
    requires cs != [] && Seqs.NoDuplicates(cs)
    ensures Seqs.NoDuplicates(cs[1..]) && cs[0] !in cs[1..]
  {
    forall i, j | 0 <= i < j < |cs[1..]|
      ensures cs[1..][i] != cs[1..][j]
    {
      assert cs[1..][i] == cs[i + 1] && cs[1..][j] == cs[j + 1];
    }
    forall j | 0 <= j < |cs[1..]|
      ensures cs[1..][j] != cs[0]
    {
      assert cs[1..][j] == cs[j + 1];
    }
  }

  lemma {:induction false} ArrangeSnoc(rows: seq<ResultRow>, x: ResultRow, cs: seq<Category>)
    requires Seqs.NoDuplicates(cs)
    ensures multiset(Arrange(rows + [x], cs))
            == multiset(Arrange(rows, cs)) + (if x.category in cs then multiset{x} else multiset{})
    decreases |cs|
  {
    if cs != [] {
      NoDuplicatesTail(cs);
      ArrangeSnoc(rows, x, cs[1..]);
      RowsOfSnocBag(rows, x, cs[0]);
      ArrangeBag(rows + [x], cs);
      ArrangeBag(rows, cs);
      assert x.category in cs <==> x.category == cs[0] || x.category in cs[1..];
    }
  }

  /** The rows of one more tier go in front of the rest. */
  lemma ArrangeBag(rows: seq<ResultRow>, cs: seq<Category>)
    requires cs != []
    ensures multiset(Arrange(rows, cs)) == multiset(RowsOf(rows, cs[0])) + multiset(Arrange(rows, cs[1..]))
  {
    assert Arrange(rows, cs) == RowsOf(rows, cs[0]) + Arrange(rows, cs[1..]);
  }

  lemma RowsOfSnocBag(rows: seq<ResultRow>, x: ResultRow, c: Category)
    ensures multiset(RowsOf(rows + [x], c)) == multiset(RowsOf(rows, c)) + (if x.category == c then multiset{x} else multiset{})
  {
    RowsOfSnoc(rows, x, c);
  }

  lemma {:induction false} ArrangeNil(cs: seq<Category>)
    ensures Arrange([], cs) == []
    decreases |cs|
  {
    if cs != [] {
      ArrangeNil(cs[1..]);
    }
  }

  /** Arranging by tiers that cover every row keeps every row once. */
  lemma {:induction false} ArrangePermutation(rows: seq<ResultRow>, cs: seq<Category>)
    requires Seqs.NoDuplicates(cs)
    requires forall i :: 0 <= i < |rows| ==> rows[i].category in cs
    ensures multiset(Arrange(rows, cs)) == multiset(rows)
    decreases |rows|
  {
    if rows == [] {
      ArrangeNil(cs);
    } else {
      var init := rows[..|rows| - 1];
      var x := rows[|rows| - 1];
      assert rows == init + [x];
      assert forall i :: 0 <= i < |init| ==> init[i] == rows[i];
      ArrangePermutation(init, cs);
      ArrangeSnoc(init, x, cs);
    }
  }

  /** The ordered query returns every stored row exactly once. */
  lemma ByCategoryPermutation(rows: seq<ResultRow>)
    ensures multiset(ByCategory(rows)) == multiset(rows)
  {
    assert Seqs.NoDuplicates(AllCategories);
    forall i | 0 <= i < |rows|
      ensures rows[i].category in AllCategories
    {
      assert AllCategories[Rank(rows[i].category)] == rows[i].category;
    }
    ArrangePermutation(rows, AllCategories);
  }

  lemma {:induction false} ArrangeSorted(rows: seq<ResultRow>, cs: seq<Category>)
    requires forall i, j :: 0 <= i < j < |cs| ==> Rank(cs[i]) < Rank(cs[j])
    ensures SortedByRank(Arrange(rows, cs))
    ensures forall x :: x in Arrange(rows, cs) ==> x.category in cs
    decreases |cs|
  {
    if cs != [] {
      var head := RowsOf(rows, cs[0]);
      var tail := Arrange(rows, cs[1..]);
      ArrangeSorted(rows, cs[1..]);
      forall x | x in head
        ensures x.category == cs[0]
      {
        RowsOfMember(rows, cs[0], x);
      }
      forall x | x in tail
        ensures Rank(cs[0]) < Rank(x.category)
      {
        var j :| 0 <= j < |cs[1..]| && cs[1..][j] == x.category;
        assert cs[j + 1] == x.category;
      }
      var a := head + tail;
      forall i, j | 0 <= i < j < |a|
        ensures Rank(a[i].category) <= Rank(a[j].category)
      {
        if j < |head| {
          assert a[i] in head && a[j] in head;
        } else if i < |head| {
          assert a[i] in head && a[j] == tail[j - |head|] && tail[j - |head|] in tail;
        } else {
          assert a[i] == tail[i - |head|] && a[j] == tail[j - |head|];
        }
      }
    }
  }

  /** The ordered query sorts the rows by tier. */
  lemma ByCategorySorted(rows: seq<ResultRow>)
    ensures SortedByRank(ByCategory(rows))
  {
    assert forall i :: 0 <= i < 5 ==> Rank(AllCategories[i]) == i;
    ArrangeSorted(rows, AllCategories);
  }

  /** Grouping the ordered rows by tier sees each tier's rows in store order. */
  lemma {:induction false} RowsOfArrange(rows: seq<ResultRow>, cs: seq<Category>, c: Category)
    requires Seqs.NoDuplicates(cs)
    ensures RowsOf(Arrange(rows, cs), c) == if c in cs then RowsOf(rows, c) else []
    decreases |cs|
  {
    if cs != [] {
      NoDuplicatesTail(cs);
      RowsOfArrange(rows, cs[1..], c);
      RowsOfAppend(RowsOf(rows, cs[0]), Arrange(rows, cs[1..]), c);
      RowsOfOwn(rows, cs[0], c);
      assert c in cs <==> c == cs[0] || c in cs[1..];
    }
  }

  lemma {:induction false} RowsOfAppend(a: seq<ResultRow>, b: seq<ResultRow>, c: Category)
    ensures RowsOf(a + b, c) == RowsOf(a, c) + RowsOf(b, c)
    decreases |b|
  {
    if b == [] {
      assert a + b == a;
    } else {
      var init := b[..|b| - 1];
      var x := b[|b| - 1];
      assert b == init + [x];
      Seqs.AppendAssoc(a, init, [x]);
      RowsOfAppend(a, init, c);
      RowsOfSnoc(a + init, x, c);
      RowsOfSnoc(init, x, c);
      if x.category == c {
        Seqs.AppendAssoc(RowsOf(a, c), RowsOf(init, c), [x]);
      }
    }
  }

  /** Selecting tier `c` from the rows of tier `d`: all of them or none. */
  lemma {:induction false} RowsOfOwn(rows: seq<ResultRow>, d: Category, c: Category)
    ensures RowsOf(RowsOf(rows, d), c) == if c == d then RowsOf(rows, d) else []
    decreases |rows|
  {
    if rows != [] {
      var init := rows[..|rows| - 1];
      var x := rows[|rows| - 1];
      RowsOfOwn(init, d, c);
      if x.category == d {
        assert RowsOf(rows, d) == RowsOf(init, d) + [x];
        RowsOfSnoc(RowsOf(init, d), x, c);
      } else {
        assert RowsOf(rows, d) == RowsOf(init, d) + [];
        assert RowsOf(init, d) + [] == RowsOf(init, d);
      }
    }
  }

  // ---------------------------------------------------------------------
  // Grouping

  /** The part of a ticket a tier reports (`slice(-5)`, `slice(-4)`): all
      of it for First Prize, the last five characters for Second, the last
      four for the other tiers. */
  function Shown(c: Category, ticket: string): (r: string)
    ensures c == First ==> r == ticket
    ensures c == Second ==> |r| == if |ticket| <= 5 then |ticket| else 5
    ensures c != First && c != Second ==> |r| == if |ticket| <= 4 then |ticket| else 4
    ensures |r| <= |ticket| && r == ticket[|ticket| - |r|..]
  {
    match c
    case First => ticket
    case Second => Last(ticket, 5)
    case _ => Last(ticket, 4)
  }

  function ShownRow(row: ResultRow): (r: seq<string>)
    ensures |r| == |row.ticketNumbers|
    ensures forall i :: 0 <= i < |r| ==> r[i] == Shown(row.category, row.ticketNumbers[i])
  {
    seq(|row.ticketNumbers|, i requires 0 <= i < |row.ticketNumbers| => Shown(row.category, row.ticketNumbers[i]))
  }

  /** The reported tickets of the rows, row after row. */
  function ShownTickets(rows: seq<ResultRow>): seq<string>
    decreases |rows|
  {
    if rows == [] then [] else ShownTickets(rows[..|rows| - 1]) + ShownRow(rows[|rows| - 1])
  }

  /** One key of the accumulator: the tier, the amount and date of its first
      row, and the reported tickets collected so far. */
  datatype Group = Group(category: Category, prizeAmount: int, date: int, tickets: seq<string>)

  function FindGroup(acc: seq<Group>, c: Category): (r: Option<nat>)
    ensures r.Some? ==> r.value < |acc| && acc[r.value].category == c
    ensures r.None? ==> forall k :: 0 <= k < |acc| ==> acc[k].category != c
  {
    if acc == [] then None
    else if acc[0].category == c then Some(0)
    else match FindGroup(acc[1..], c)
      case None => None
      case Some(k) => Some(k + 1)
  }

  /** One turn of the reduce: a new tier opens a group at the end (keys keep
      insertion order), a known one has the row's tickets appended. */
  function AddRow(acc: seq<Group>, row: ResultRow): (r: seq<Group>)
  {
    var shown := ShownRow(row);
    match FindGroup(acc, row.category)
    case None => acc + [Group(row.category, row.prizeAmount, row.createdDay, shown)]
    case Some(k) => acc[k := acc[k].(tickets := acc[k].tickets + shown)]
  }

  /** The reduce over the rows. */
  function Accumulate(rows: seq<ResultRow>): seq<Group>
    decreases |rows|
  {
    if rows == [] then [] else AddRow(Accumulate(rows[..|rows| - 1]), rows[|rows| - 1])
  }

  /** No two groups share a tier. */
  predicate KeysDistinct(acc: seq<Group>)
  {
    forall i, j :: 0 <= i < j < |acc| ==> acc[i].category != acc[j].category
  }

  /** Each group holds the reported tickets of its tier's rows, in order,
      and the amount and date of the tier's first row. */
  predicate GroupsHold(acc: seq<Group>, rows: seq<ResultRow>)
  {
    forall k :: 0 <= k < |acc| ==> GroupHolds(acc[k], rows)
  }

  predicate GroupHolds(g: Group, rows: seq<ResultRow>)
  {
    var rs := RowsOf(rows, g.category);
    && rs != []
    && g.tickets == ShownTickets(rs)
    && g.prizeAmount == rs[0].prizeAmount
    && g.date == rs[0].createdDay
  }

  /** Every tier with rows has a group. */
  predicate GroupsCover(acc: seq<Group>, rows: seq<ResultRow>)
  {
    forall c :: RowsOf(rows, c) != [] ==> FindGroup(acc, c).Some?
  }

  /** The groups of `rows`: one per tier present, as above. */
  predicate GroupsOf(acc: seq<Group>, rows: seq<ResultRow>)
  {
    KeysDistinct(acc) && GroupsHold(acc, rows) && GroupsCover(acc, rows)
  }

  lemma ShownTicketsSnoc(rs: seq<ResultRow>, x: ResultRow)
    ensures ShownTickets(rs + [x]) == ShownTickets(rs) + ShownRow(x)
  {
    assert (rs + [x])[..|rs|] == rs;
  }

  lemma AddRowKeys(acc: seq<Group>, x: ResultRow)
    requires KeysDistinct(acc)
    ensures KeysDistinct(AddRow(acc, x))
  {
  }

  /** A group of another tier is unaffected by a new row. */
  lemma GroupHoldsOther(g: Group, rows: seq<ResultRow>, x: ResultRow)
    requires GroupHolds(g, rows) && g.category != x.category
    ensures GroupHolds(g, rows + [x])
  {
    RowsOfSnoc(rows, x, g.category);
  }

  lemma AddRowHold(acc: seq<Group>, rows: seq<ResultRow>, x: ResultRow)
    requires KeysDistinct(acc) && GroupsHold(acc, rows) && GroupsCover(acc, rows)
    ensures GroupsHold(AddRow(acc, x), rows + [x])
  {
    var acc' := AddRow(acc, x);
    var rs := RowsOf(rows, x.category);
    RowsOfSnoc(rows, x, x.category);
    ShownTicketsSnoc(rs, x);
    match FindGroup(acc, x.category)
    case None =>
      forall k | 0 <= k < |acc'|
        ensures GroupHolds(acc'[k], rows + [x])
      {
        if k < |acc| {
          GroupHoldsOther(acc[k], rows, x);
        } else {
          assert rs == [];
          assert ShownTickets([x]) == ShownTickets([]) + ShownRow(x) by {
            ShownTicketsSnoc([], x);
          }
        }
      }
    case Some(k) =>
      forall j | 0 <= j < |acc'|
        ensures GroupHolds(acc'[j], rows + [x])
      {
        if j == k {
          assert GroupHolds(acc[k], rows);
          assert (rs + [x])[0] == rs[0];
        } else {
          GroupHoldsOther(acc[j], rows, x);
        }
      }
  }

  lemma AddRowCover(acc: seq<Group>, rows: seq<ResultRow>, x: ResultRow)
    requires GroupsCover(acc, rows)
    ensures GroupsCover(AddRow(acc, x), rows + [x])
  {
    var acc' := AddRow(acc, x);
    forall c | RowsOf(rows + [x], c) != []
      ensures FindGroup(acc', c).Some?
    {
      RowsOfSnoc(rows, x, c);
      if FindGroup(acc, c).Some? {
        var k := FindGroup(acc, c).value;
        assert acc'[k].category == c;
      } else {
        assert c == x.category;
        assert acc'[|acc|].category == c;
      }
    }
  }

  lemma AddRowGroups(acc: seq<Group>, rows: seq<ResultRow>, x: ResultRow)
    requires GroupsOf(acc, rows)
    ensures GroupsOf(AddRow(acc, x), rows + [x])
  {
    AddRowKeys(acc, x);
    AddRowHold(acc, rows, x);
    AddRowCover(acc, rows, x);
  }

  lemma {:induction false} AccumulateGroups(rows: seq<ResultRow>)
    ensures GroupsOf(Accumulate(rows), rows)
    decreases |rows|
  {
    if rows != [] {
      var init := rows[..|rows| - 1];
      var x := rows[|rows| - 1];
      assert rows == init + [x];
      assert Accumulate(rows) == AddRow(Accumulate(init), x);
      AccumulateGroups(init);
      AddRowGroups(Accumulate(init), init, x);
    }
  }

  /** The groups are in First to Fifth order. */
  predicate Ranked(acc: seq<Group>)
  {
    forall i, j :: 0 <= i < j < |acc| ==> Rank(acc[i].category) < Rank(acc[j].category)
  }

  /** When every row ranks at most `x`, so does every group. */
  lemma GroupsBelow(acc: seq<Group>, rows: seq<ResultRow>, x: ResultRow)
    requires GroupsHold(acc, rows)
    requires forall i :: 0 <= i < |rows| ==> Rank(rows[i].category) <= Rank(x.category)
    ensures forall k :: 0 <= k < |acc| ==> Rank(acc[k].category) <= Rank(x.category)
  {
    forall k | 0 <= k < |acc|
      ensures Rank(acc[k].category) <= Rank(x.category)
    {
      assert GroupHolds(acc[k], rows);
      var r := RowsOf(rows, acc[k].category)[0];
      RowsOfMember(rows, acc[k].category, r);
      var m :| 0 <= m < |rows| && rows[m] == r;
    }
  }

  lemma AddRowRanked(acc: seq<Group>, x: ResultRow)
    requires Ranked(acc) && KeysDistinct(acc)
    requires forall k :: 0 <= k < |acc| ==> Rank(acc[k].category) <= Rank(x.category)
    ensures Ranked(AddRow(acc, x))
  {
    if FindGroup(acc, x.category).None? {
      var acc' := AddRow(acc, x);
      forall i, j | 0 <= i < j < |acc'|
        ensures Rank(acc'[i].category) < Rank(acc'[j].category)
      {
        if j == |acc| {
          assert acc'[i] == acc[i] && acc[i].category != x.category;
        } else {
          assert acc'[i] == acc[i] && acc'[j] == acc[j];
        }
      }
    }
  }

  /** On rows sorted by tier the groups come out in tier order. */
  lemma {:induction false} AccumulateOrdered(rows: seq<ResultRow>)
    requires SortedByRank(rows)
    ensures Ranked(Accumulate(rows))
    decreases |rows|
  {
    if rows != [] {
      var init := rows[..|rows| - 1];
      var x := rows[|rows| - 1];
      assert rows == init + [x];
      assert Accumulate(rows) == AddRow(Accumulate(init), x);
      assert SortedByRank(init) by {
        assert forall i :: 0 <= i < |init| ==> init[i] == rows[i];
      }
      assert forall i :: 0 <= i < |init| ==> Rank(init[i].category) <= Rank(x.category) by {
        assert forall i :: 0 <= i < |init| ==> init[i] == rows[i];
      }
      AccumulateOrdered(init);
      AccumulateGroups(init);
      GroupsBelow(Accumulate(init), init, x);
      AddRowRanked(Accumulate(init), x);
    }
  }

  // ---------------------------------------------------------------------
  // One tier's entry

  /** `slice(0, n)`. */
  function Take<T>(xs: seq<T>, n: nat): (r: seq<T>)
    ensures |r| == if |xs| <= n then |xs| else n
    ensures r == xs[..|r|]
  {
    if |xs| <= n then xs else xs[..n]
  }

  /** JavaScript's `undefined` in a ticket list. */
  const Undefined: Option<string> := None

  /** The padding loop's result: for the tiers other than First, entries are
      added up to ten, each a copy of the last one; on an empty list the
      copy is `undefined`, here `None`. */
  function Padded(c: Category, xs: seq<Option<string>>): seq<Option<string>>
  {
    if c == First || |xs| >= 10 then xs
    else xs + seq(10 - |xs|, _ => if xs == [] then Undefined else xs[|xs| - 1])
  }

  /** The tickets of a group as reported entries. */
  function Entries(ts: seq<string>): (r: seq<Option<string>>)
    ensures |r| == |ts| && forall i :: 0 <= i < |ts| ==> r[i] == Some(ts[i])
  {
    seq(|ts|, i requires 0 <= i < |ts| => Some(ts[i]))
  }

  /** An element of the report. */
  datatype Entry = Entry(category: Category, prizeAmount: int, date: int, tickets: seq<Option<string>>)

  function EntryOf(g: Group): Entry
  {
    var limited := Take(Entries(g.tickets), Limit(g.category));
    Entry(g.category, g.prizeAmount, g.date, Seqs.Distinct(Padded(g.category, limited)))
  }

  /** One entry per group, in group order. */
  function EntriesOf(groups: seq<Group>): (r: seq<Entry>)
    ensures |r| == |groups| && forall k :: 0 <= k < |groups| ==> r[k] == EntryOf(groups[k])
  {
    seq(|groups|, k requires 0 <= k < |groups| => EntryOf(groups[k]))
  }

  /** The report of the stored rows. */
  function Report(rows: seq<ResultRow>): seq<Entry>
  {
    EntriesOf(Accumulate(ByCategory(rows)))
  }

  lemma {:induction false} DistinctRepeat(xs: seq<Option<string>>, n: nat, v: Option<string>)
    requires v in xs
    ensures Seqs.Distinct(xs + seq(n, _ => v)) == Seqs.Distinct(xs)
    decreases n
  {
    if n > 0 {
      var s := xs + seq(n - 1, _ => v);
      DistinctRepeat(xs, n - 1, v);
      assert xs + seq(n, _ => v) == s + [v];
      var i :| 0 <= i < |xs| && xs[i] == v;
      assert s[i] == v;
      Seqs.DistinctSnoc(s, v);
    } else {
      assert xs + seq(n, _ => v) == xs;
    }
  }

  lemma {:induction false} DistinctNone(n: nat)
    requires n > 0
    ensures Seqs.Distinct(seq(n, _ => Undefined)) == [Undefined]
    decreases n
  {
    var s := seq(n, _ => Undefined);
    if n == 1 {
      var e: seq<Option<string>> := [];
      assert s == e + [Undefined];
      Seqs.DistinctSnoc(e, Undefined);
    } else {
      DistinctNone(n - 1);
      var p := seq(n - 1, _ => Undefined);
      assert s == p + [Undefined] && Undefined in p;
      Seqs.DistinctSnoc(p, Undefined);
    }
  }

  /** A tier's reported tickets are its collected tickets cut to the tier's
      ticket count, duplicates dropped keeping first occurrences: padding
      adds no new value, except that a tier with no ticket at all reports a
      single `undefined`. First Prize reports at most one ticket and the
      other tiers at most their limit. */
  lemma EntryTickets(g: Group)
    ensures var limited := Take(Entries(g.tickets), Limit(g.category));
            var e := EntryOf(g);
            && e.category == g.category && e.prizeAmount == g.prizeAmount && e.date == g.date
            && e.tickets == (if g.category != First && g.tickets == [] then [Undefined] else Seqs.Distinct(limited))
            && Seqs.NoDuplicates(e.tickets)
            && |e.tickets| <= Limit(g.category)
  {
    var c := g.category;
    var limited := Take(Entries(g.tickets), Limit(c));
    if c != First && |limited| < 10 {
      if g.tickets == [] {
        assert Padded(c, limited) == seq(10, _ => Undefined);
        DistinctNone(10);
      } else {
        var v := limited[|limited| - 1];
        assert v in limited;
        DistinctRepeat(limited, 10 - |limited|, v);
      }
    }
  }

  // ---------------------------------------------------------------------
  // The controller

  /** The reduce as the controller runs it, over the ordered rows. */
  method GroupRows(rows: seq<ResultRow>) returns (acc: seq<Group>)
    ensures acc == Accumulate(rows)
  {
    acc := [];
    var i := 0;
    while i < |rows|
      invariant 0 <= i <= |rows|
      invariant acc == Accumulate(rows[..i])
    {
      var row := rows[i];
      var shown := ShownRow(row);
      var found := FindGroup(acc, row.category);
      assert rows[..i + 1][..i] == rows[..i];
      if found.None? {
        acc := acc + [Group(row.category, row.prizeAmount, row.createdDay, shown)];
      } else {
        var k := found.value;
        acc := acc[k := acc[k].(tickets := acc[k].tickets + shown)];
      }
      i := i + 1;
    }
    assert rows[..i] == rows;
  }

  /** The padding loop. */
  method PadTickets(c: Category, limited: seq<Option<string>>) returns (padded: seq<Option<string>>)
    ensures padded == Padded(c, limited)
  {
    padded := limited;
    while |padded| < 10 && c != First
      invariant |limited| <= |padded|
      invariant padded[..|limited|] == limited
      invariant c != First && |limited| < 10 ==> |padded| <= 10
      invariant c == First || |limited| >= 10 ==> padded == limited
      invariant forall i :: |limited| <= i < |padded| ==>
                  padded[i] == if limited == [] then Undefined else limited[|limited| - 1]
      decreases 10 - |padded|
    {
      var last := if padded == [] then Undefined else padded[|padded| - 1];
      padded := padded + [last];
    }
    if c != First && |limited| < 10 {
      var fill := seq(10 - |limited|, _ => if limited == [] then Undefined else limited[|limited| - 1]);
      assert padded == limited + fill;
    }
  }

  /** The loop building one entry per group. */
  method BuildEntries(groups: seq<Group>) returns (data: seq<Entry>)
    ensures data == EntriesOf(groups)
  {
    data := [];
    var k := 0;
    while k < |groups|
      invariant 0 <= k <= |groups|
      invariant |data| == k && forall j :: 0 <= j < k ==> data[j] == EntryOf(groups[j])
    {
      var g := groups[k];
      var limited := Take(Entries(g.tickets), Limit(g.category));
      var padded := PadTickets(g.category, limited);
      data := data + [Entry(g.category, g.prizeAmount, g.date, Seqs.Distinct(padded))];
      k := k + 1;
    }
  }

  /** `getResult`: the ordered query, the reduce, then one entry per group. */
  method GetResult(rows: seq<ResultRow>) returns (data: seq<Entry>)
    ensures data == Report(rows)
  {
    var sorted := ByCategory(rows);
    var groups := GroupRows(sorted);
    data := BuildEntries(groups);
  }

  /** Ordering by tier leaves each tier's rows in store order. */
  lemma ByCategoryRowsOf(rows: seq<ResultRow>, c: Category)
    ensures RowsOf(ByCategory(rows), c) == RowsOf(rows, c)
  {
    assert Seqs.NoDuplicates(AllCategories);
    RowsOfArrange(rows, AllCategories, c);
    assert c == AllCategories[Rank(c)];
  }

  /** The groups of the ordered rows are the groups of the stored rows. */
  lemma ReportGroups(rows: seq<ResultRow>)
    ensures GroupsOf(Accumulate(ByCategory(rows)), rows)
  {
    var sorted := ByCategory(rows);
    var groups := Accumulate(sorted);
    AccumulateGroups(sorted);
    forall c
      ensures RowsOf(sorted, c) == RowsOf(rows, c)
    {
      ByCategoryRowsOf(rows, c);
    }
    forall k | 0 <= k < |groups|
      ensures GroupHolds(groups[k], rows)
    {
      assert GroupHolds(groups[k], sorted);
    }
  }

  /** The report lists the tiers in First to Fifth order. */
  lemma ReportOrder(rows: seq<ResultRow>)
    ensures var r := Report(rows);
            forall i, j :: 0 <= i < j < |r| ==> Rank(r[i].category) < Rank(r[j].category)
  {
    var sorted := ByCategory(rows);
    ByCategorySorted(rows);
    AccumulateOrdered(sorted);
  }

  /** The report has an entry for a tier exactly when the tier has rows. */
  lemma ReportTiers(rows: seq<ResultRow>, c: Category)
    ensures var r := Report(rows);
            (exists k :: 0 <= k < |r| && r[k].category == c) <==> RowsOf(rows, c) != []
  {
    var groups := Accumulate(ByCategory(rows));
    var r := Report(rows);
    ReportGroups(rows);
    if RowsOf(rows, c) != [] {
      var k := FindGroup(groups, c).value;
      assert r[k].category == c;
    }
    if k :| 0 <= k < |r| && r[k].category == c {
      assert GroupHolds(groups[k], rows);
    }
  }

  /** Each entry carries the amount and date of its tier's first row and
      the tier's reported tickets, limited and de-duplicated. */
  lemma ReportEntry(rows: seq<ResultRow>, k: nat)
    requires k < |Report(rows)|
    ensures var e := Report(rows)[k];
            var rs := RowsOf(rows, e.category);
            var limited := Take(Entries(ShownTickets(rs)), Limit(e.category));
            && rs != []
            && e.prizeAmount == rs[0].prizeAmount && e.date == rs[0].createdDay
            && e.tickets == (if e.category != First && ShownTickets(rs) == [] then [Undefined]
                             else Seqs.Distinct(limited))
            && Seqs.NoDuplicates(e.tickets)
            && |e.tickets| <= Limit(e.category)
  {
    var groups := Accumulate(ByCategory(rows));
    ReportGroups(rows);
    assert GroupHolds(groups[k], rows);
    EntryTickets(groups[k]);
  }
}
