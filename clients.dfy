/**
 * The revenue page's client table: current and previous per-client totals
 * outer-joined on the client name with a missing side read as 0, a percentage
 * column, and the rows sorted in place by current revenue, largest first.
 */
module Clients {
  import opened Variance

  /** A row of a per-client query: the client's name and summed amount in pence. */
  datatype ClientTotal = ClientTotal(name: string, amount: int)

  /** A row of the outer join after `fillna(0)`. */
  datatype MergedClient = MergedClient(name: string, current: int, previous: int)

  /** A row of the displayed table: name, `Revenue YTD`, `Revenue previous YTD`, `% Difference`. */
  datatype ClientRow = ClientRow(name: string, current: int, previous: int, percent: real)

  function Names(rows: seq<ClientTotal>): set<string> {
    set k | 0 <= k < |rows| :: rows[k].name
  }

  function MergedNames(rows: seq<MergedClient>): set<string> {
    set i | 0 <= i < |rows| :: rows[i].name
  }

  /** The query groups by client name, so a name occurs at most once. */
  predicate UniqueNames(rows: seq<ClientTotal>) {
    forall i, j :: 0 <= i < j < |rows| ==> rows[i].name != rows[j].name
  }

  /** A client's amount on one side of the join: the amount of its row, or 0 (the NaN `fillna(0)` replaces) when it has none. */
  function AmountOf(rows: seq<ClientTotal>, name: string): (a: int)
    ensures (exists k :: 0 <= k < |rows| && rows[k].name == name && a == rows[k].amount)
         || (a == 0 && name !in Names(rows))
  {
    if rows == [] then 0
    else if rows[0].name == name then rows[0].amount
    else
      var a := AmountOf(rows[1..], name);
      assert forall k :: 1 <= k < |rows| ==> rows[k] == rows[1..][k - 1];
      a
  }

  lemma {:induction false} AmountOfRow(rows: seq<ClientTotal>, k: int)
    requires UniqueNames(rows) && 0 <= k < |rows|
    ensures AmountOf(rows, rows[k].name) == rows[k].amount
  {
    if k > 0 {
      AmountOfRow(rows[1..], k - 1);
    }
  }

  /** With one row per client, a client's amount is the amount of any row it has. */
  lemma AmountOfMember(rows: seq<ClientTotal>, name: string, amount: int)
    requires UniqueNames(rows) && ClientTotal(name, amount) in rows
    ensures AmountOf(rows, name) == amount
  {
    var k :| 0 <= k < |rows| && rows[k] == ClientTotal(name, amount);
    AmountOfRow(rows, k);
  }

  /** The rows of clients invoiced in the current window, each with its previous amount or 0. */
  function CurrentSide(current: seq<ClientTotal>, previous: seq<ClientTotal>): (r: seq<MergedClient>)
    ensures |r| == |current|
    ensures forall i :: 0 <= i < |r| ==>
      r[i] == MergedClient(current[i].name, current[i].amount, AmountOf(previous, current[i].name))
    ensures forall i :: 0 <= i < |r| ==>
      (exists k :: 0 <= k < |previous| && previous[k].name == r[i].name && r[i].previous == previous[k].amount)
      || (r[i].previous == 0 && r[i].name !in Names(previous))
  {
    seq(|current|, i requires 0 <= i < |current| =>
      MergedClient(current[i].name, current[i].amount, AmountOf(previous, current[i].name)))
  }

  /** The rows of clients invoiced only in the previous window, with a current amount of 0. */
  function PreviousOnly(previous: seq<ClientTotal>, currentNames: set<string>): seq<MergedClient> {
    if previous == [] then []
    else
      var p := previous[0];
      (if p.name in currentNames then [] else [MergedClient(p.name, 0, p.amount)])
        + PreviousOnly(previous[1..], currentNames)
  }

  /** `pd.merge(current, previous, on="client_name", how="outer").fillna(0)`. */
  function OuterJoin(current: seq<ClientTotal>, previous: seq<ClientTotal>): seq<MergedClient> {
    CurrentSide(current, previous) + PreviousOnly(previous, Names(current))
  }

  lemma NamesCons(rows: seq<ClientTotal>)
    requires rows != []
    ensures Names(rows) == {rows[0].name} + Names(rows[1..])
  {
    forall n | n in Names(rows) ensures n in {rows[0].name} + Names(rows[1..]) {
      var k :| 0 <= k < |rows| && rows[k].name == n;
      if k > 0 { assert rows[1..][k - 1].name == n; }
    }
    forall n | n in Names(rows[1..]) ensures n in Names(rows) {
      var k :| 0 <= k < |rows[1..]| && rows[1..][k].name == n;
      assert rows[k + 1].name == n;
    }
  }

  lemma MergedNamesAppend(a: seq<MergedClient>, b: seq<MergedClient>)
    ensures MergedNames(a + b) == MergedNames(a) + MergedNames(b)
  {
    forall n | n in MergedNames(a + b) ensures n in MergedNames(a) + MergedNames(b) {
      var i :| 0 <= i < |a + b| && (a + b)[i].name == n;
      if i >= |a| { assert b[i - |a|].name == n; }
    }
    forall n | n in MergedNames(a) ensures n in MergedNames(a + b) {
      var i :| 0 <= i < |a| && a[i].name == n;
      assert (a + b)[i].name == n;
    }
    forall n | n in MergedNames(b) ensures n in MergedNames(a + b) {
      var i :| 0 <= i < |b| && b[i].name == n;
      assert (a + b)[i + |a|].name == n;
    }
  }

  /**
   * The previous-only rows are the previous rows whose client has no current
   * row, each client once, with current amount 0.
   */
  lemma PreviousOnlySpec(previous: seq<ClientTotal>, currentNames: set<string>)
    requires UniqueNames(previous)
    ensures var r := PreviousOnly(previous, currentNames);
      && (forall i :: 0 <= i < |r| ==>
            r[i].name !in currentNames && r[i].current == 0 && ClientTotal(r[i].name, r[i].previous) in previous)
      && MergedNames(r) == Names(previous) - currentNames
      && (forall i, j :: 0 <= i < j < |r| ==> r[i].name != r[j].name)
  {
    var r := PreviousOnly(previous, currentNames);
    PreviousOnlyRows(previous, currentNames);
    forall i | 0 <= i < |r|
      ensures r[i].name !in currentNames && r[i].current == 0 && ClientTotal(r[i].name, r[i].previous) in previous
    {
      assert PreviousOnlyRow(r[i], previous, currentNames);
    }
    PreviousOnlyNames(previous, currentNames);
    PreviousOnlyDistinct(previous, currentNames);
  }

  /** A previous-only row: a previous client with no current row, shown with current amount 0. */
  predicate PreviousOnlyRow(m: MergedClient, previous: seq<ClientTotal>, currentNames: set<string>) {
    m.name !in currentNames && m.current == 0 && ClientTotal(m.name, m.previous) in previous
  }

  lemma {:induction false} PreviousOnlyRows(previous: seq<ClientTotal>, currentNames: set<string>)
    ensures forall m :: m in PreviousOnly(previous, currentNames) ==> PreviousOnlyRow(m, previous, currentNames)
  {
    if previous != [] {
      var p, tail := previous[0], previous[1..];
      PreviousOnlyRows(tail, currentNames);
      var rest := PreviousOnly(tail, currentNames);
      var head := if p.name in currentNames then [] else [MergedClient(p.name, 0, p.amount)];
      var r := PreviousOnly(previous, currentNames);
      assert r == head + rest;
      forall m | m in r ensures PreviousOnlyRow(m, previous, currentNames) {
        if m in rest {
          assert PreviousOnlyRow(m, tail, currentNames);
          var k :| 0 <= k < |tail| && tail[k] == ClientTotal(m.name, m.previous);
          assert previous[k + 1] == tail[k];
        }
      }
    }
  }

  lemma {:induction false} PreviousOnlyNames(previous: seq<ClientTotal>, currentNames: set<string>)
    ensures MergedNames(PreviousOnly(previous, currentNames)) == Names(previous) - currentNames
  {
    if previous != [] {
      var p, tail := previous[0], previous[1..];
      PreviousOnlyNames(tail, currentNames);
      var rest := PreviousOnly(tail, currentNames);
      var head := if p.name in currentNames then [] else [MergedClient(p.name, 0, p.amount)];
      assert PreviousOnly(previous, currentNames) == head + rest;
      NamesCons(previous);
      MergedNamesAppend(head, rest);
      if p.name in currentNames {
        assert MergedNames(head) == {};
      } else {
        MergedNamesSingleton(MergedClient(p.name, 0, p.amount));
      }
    }
  }

  lemma MergedNamesSingleton(m: MergedClient)
    ensures MergedNames([m]) == {m.name}
  {
    assert [m][0].name == m.name;
  }

  lemma {:induction false} PreviousOnlyDistinct(previous: seq<ClientTotal>, currentNames: set<string>)
    requires UniqueNames(previous)
    ensures var r := PreviousOnly(previous, currentNames);
      forall i, j :: 0 <= i < j < |r| ==> r[i].name != r[j].name
  {
    if previous != [] {
      var p, tail := previous[0], previous[1..];
      assert UniqueNames(tail) by {
        forall i, j | 0 <= i < j < |tail| ensures tail[i].name != tail[j].name {
          assert tail[i] == previous[i + 1] && tail[j] == previous[j + 1];
        }
      }
      PreviousOnlyDistinct(tail, currentNames);
      PreviousOnlyNames(tail, currentNames);
      var rest := PreviousOnly(tail, currentNames);
      var head := if p.name in currentNames then [] else [MergedClient(p.name, 0, p.amount)];
      var r := PreviousOnly(previous, currentNames);
      assert r == head + rest;
      assert p.name !in Names(tail) by {
        forall k | 0 <= k < |tail| ensures tail[k].name != p.name {
          assert tail[k] == previous[k + 1];
        }
      }
      forall i, j | 0 <= i < j < |r|
        ensures r[i].name != r[j].name
      {
        if i >= |head| {
          assert r[i] == rest[i - |head|] && r[j] == rest[j - |head|];
        } else {
          assert r[j] == rest[j - 1];
          assert r[j].name in MergedNames(rest);
        }
      }
    }
  }

  /**
   * The outer join has every client of either side exactly once; its current
   * and previous amounts are that client's amounts on each side, 0 where it
   * has no row.
   */
  lemma OuterJoinSpec(current: seq<ClientTotal>, previous: seq<ClientTotal>)
    requires UniqueNames(current) && UniqueNames(previous)
    ensures var j := OuterJoin(current, previous);
      && MergedNames(j) == Names(current) + Names(previous)
      && (forall i, k :: 0 <= i < k < |j| ==> j[i].name != j[k].name)
      && (forall i :: 0 <= i < |j| ==>
            j[i].current == AmountOf(current, j[i].name) && j[i].previous == AmountOf(previous, j[i].name))
  {
    OuterJoinNames(current, previous);
    OuterJoinDistinct(current, previous);
    OuterJoinAmounts(current, previous);
  }

  lemma OuterJoinNames(current: seq<ClientTotal>, previous: seq<ClientTotal>)
    requires UniqueNames(previous)
    ensures MergedNames(OuterJoin(current, previous)) == Names(current) + Names(previous)
  {
    var c, p := CurrentSide(current, previous), PreviousOnly(previous, Names(current));
    PreviousOnlySpec(previous, Names(current));
    MergedNamesAppend(c, p);
    assert MergedNames(c) == Names(current) by {
      forall n | n in Names(current) ensures n in MergedNames(c) {
        var k :| 0 <= k < |current| && current[k].name == n;
        assert c[k].name == n;
      }
    }
  }

  lemma OuterJoinDistinct(current: seq<ClientTotal>, previous: seq<ClientTotal>)
    requires UniqueNames(current) && UniqueNames(previous)
    ensures var j := OuterJoin(current, previous);
      forall i, k :: 0 <= i < k < |j| ==> j[i].name != j[k].name
  {
    var j := OuterJoin(current, previous);
    var c, p := CurrentSide(current, previous), PreviousOnly(previous, Names(current));
    PreviousOnlySpec(previous, Names(current));
    forall i, k | 0 <= i < k < |j|
      ensures j[i].name != j[k].name
    {
      if k < |c| {
        assert j[i] == c[i] && j[k] == c[k];
      } else if i < |c| {
        assert j[i] == c[i];
        assert j[i].name in Names(current);
        assert j[k] == p[k - |c|];
      } else {
        assert j[i] == p[i - |c|] && j[k] == p[k - |c|];
      }
    }
  }

  lemma OuterJoinAmounts(current: seq<ClientTotal>, previous: seq<ClientTotal>)
    requires UniqueNames(current) && UniqueNames(previous)
    ensures var j := OuterJoin(current, previous);
      forall i :: 0 <= i < |j| ==>
        j[i].current == AmountOf(current, j[i].name) && j[i].previous == AmountOf(previous, j[i].name)
  {
    var j := OuterJoin(current, previous);
    var c, p := CurrentSide(current, previous), PreviousOnly(previous, Names(current));
    PreviousOnlySpec(previous, Names(current));
    forall i | 0 <= i < |j|
      ensures j[i].current == AmountOf(current, j[i].name) && j[i].previous == AmountOf(previous, j[i].name)
    {
      if i < |c| {
        assert j[i] == c[i];
        AmountOfRow(current, i);
      } else {
        var q := p[i - |c|];
        assert j[i] == q;
        AmountOfMember(previous, q.name, q.previous);
      }
    }
  }

  /** `clients_merged["% Difference"] = clients_merged.apply(calc_percentage_diff, axis=1)`. */
  function WithPercent(rows: seq<MergedClient>): (r: seq<ClientRow>)
    ensures |r| == |rows|
    ensures forall i :: 0 <= i < |r| ==>
      r[i] == ClientRow(rows[i].name, rows[i].current, rows[i].previous, PercentDiff(rows[i].current, rows[i].previous))
    ensures forall i :: 0 <= i < |r| && r[i].previous == 0 ==> r[i].percent == 0.0
    ensures forall i :: 0 <= i < |r| && r[i].previous != 0 ==>
      r[i].percent * (r[i].previous as real) == ((r[i].current - r[i].previous) as real) * 100.0
  {
    seq(|rows|, i requires 0 <= i < |rows| =>
      ClientRow(rows[i].name, rows[i].current, rows[i].previous, PercentDiff(rows[i].current, rows[i].previous)))
  }

  /** `Revenue YTD` never increases down the table. */
  predicate ByRevenueDescending(rows: seq<ClientRow>) {
    forall i, j :: 0 <= i < j < |rows| ==> rows[i].current >= rows[j].current
  }

  /** The position of a largest `Revenue YTD` among `a[lo..]`. */
  method IndexOfLargest(a: array<ClientRow>, lo: int) returns (m: int)
    requires 0 <= lo < a.Length
    ensures lo <= m < a.Length
    ensures forall q :: lo <= q < a.Length ==> a[m].current >= a[q].current
  {
    m := lo;
    var j := lo + 1;
    while j < a.Length
      invariant lo <= m < a.Length && lo < j <= a.Length
      invariant forall q :: lo <= q < j ==> a[m].current >= a[q].current
    {
      if a[j].current > a[m].current {
        m := j;
      }
      j := j + 1;
    }
  }

  /** Exchanges two rows; the table keeps the same rows. */
  method Swap(a: array<ClientRow>, i: int, j: int)
    requires 0 <= i < a.Length && 0 <= j < a.Length
    modifies a
    ensures a[i] == old(a[j]) && a[j] == old(a[i])
    ensures forall k :: 0 <= k < a.Length && k != i && k != j ==> a[k] == old(a[k])
    ensures multiset(a[..]) == multiset(old(a[..]))
  {
    a[i], a[j] := a[j], a[i];
  }

  /**
   * `clients_merged.sort_values(by="Revenue YTD", ascending=False, inplace=True)`:
   * the same rows, largest current revenue first. Rows with equal revenue may
   * come in any order, as pandas' default sort promises none.
   */
  method SortByRevenueDescending(a: array<ClientRow>)
    modifies a
    ensures ByRevenueDescending(a[..])
    ensures multiset(a[..]) == multiset(old(a[..]))
  {
    var i := 0;
    while i < a.Length
      invariant 0 <= i <= a.Length
      invariant forall p, q :: 0 <= p < q < i ==> a[p].current >= a[q].current
      invariant forall p, q :: 0 <= p < i <= q < a.Length ==> a[p].current >= a[q].current
      invariant multiset(a[..]) == multiset(old(a[..]))
    {
      var m := IndexOfLargest(a, i);
      Swap(a, i, m);
      i := i + 1;
    }
  }

  /** The table row a client should get: its amount on each side (0 where it has no row) and their percentage difference. */
  function ClientLine(current: seq<ClientTotal>, previous: seq<ClientTotal>, name: string): ClientRow {
    var c, p := AmountOf(current, name), AmountOf(previous, name);
    ClientRow(name, c, p, PercentDiff(c, p))
  }

  /** Two equal elements at different places occur at least twice. */
  lemma {:induction false} RepeatedElementCount<T>(s: seq<T>, i: int, j: int)
    requires 0 <= i < j < |s| && s[i] == s[j]
    ensures multiset(s)[s[i]] >= 2
  {
    assert s == s[..i] + [s[i]] + s[i + 1..j] + [s[j]] + s[j + 1..];
  }

  /**
   * The displayed client table, in whatever order the sort left it: every
   * client of either query has exactly one row, no other name appears, and
   * each row holds the client's two amounts and their percentage difference.
   */
  lemma ClientTable(current: seq<ClientTotal>, previous: seq<ClientTotal>, table: seq<ClientRow>)
    requires UniqueNames(current) && UniqueNames(previous)
    requires multiset(table) == multiset(WithPercent(OuterJoin(current, previous)))
    ensures forall n :: n in Names(current) + Names(previous) <==> exists i :: 0 <= i < |table| && table[i].name == n
    ensures forall i :: 0 <= i < |table| ==> table[i] == ClientLine(current, previous, table[i].name)
    ensures forall i, j :: 0 <= i < j < |table| ==> table[i].name != table[j].name
  {
    ClientTableRows(current, previous, table);
    ClientTableNames(current, previous, table);
    ClientTableDistinct(current, previous, table);
  }

  lemma ClientTableRows(current: seq<ClientTotal>, previous: seq<ClientTotal>, table: seq<ClientRow>)
    requires UniqueNames(current) && UniqueNames(previous)
    requires multiset(table) == multiset(WithPercent(OuterJoin(current, previous)))
    ensures forall i :: 0 <= i < |table| ==> table[i] == ClientLine(current, previous, table[i].name)
  {
    var joined := OuterJoin(current, previous);
    var w := WithPercent(joined);
    OuterJoinAmounts(current, previous);
    forall i | 0 <= i < |table|
      ensures table[i] == ClientLine(current, previous, table[i].name)
    {
      assert table[i] in multiset(w);
      var k :| 0 <= k < |w| && w[k] == table[i];
      assert joined[k].name == table[i].name;
    }
  }

  lemma ClientTableNames(current: seq<ClientTotal>, previous: seq<ClientTotal>, table: seq<ClientRow>)
    requires UniqueNames(previous)
    requires multiset(table) == multiset(WithPercent(OuterJoin(current, previous)))
    ensures forall n :: n in Names(current) + Names(previous) <==> exists i :: 0 <= i < |table| && table[i].name == n
  {
    var joined := OuterJoin(current, previous);
    var w := WithPercent(joined);
    OuterJoinNames(current, previous);
    forall n
      ensures n in Names(current) + Names(previous) <==> exists i :: 0 <= i < |table| && table[i].name == n
    {
      if n in Names(current) + Names(previous) {
        assert n in MergedNames(joined);
        var k :| 0 <= k < |joined| && joined[k].name == n;
        assert w[k] in multiset(table);
        var i :| 0 <= i < |table| && table[i] == w[k];
        assert table[i].name == n;
      }
      if exists i :: 0 <= i < |table| && table[i].name == n {
        var i :| 0 <= i < |table| && table[i].name == n;
        assert table[i] in multiset(w);
        var k :| 0 <= k < |w| && w[k] == table[i];
        assert joined[k].name in MergedNames(joined);
      }
    }
  }

  /** An element counted twice sits at two different places. */
  lemma TwoOccurrences<T>(s: seq<T>, x: T)
    requires multiset(s)[x] >= 2
    ensures exists k, k2 :: 0 <= k < k2 < |s| && s[k] == x && s[k2] == x
  {
    assert x in multiset(s);
    var k :| 0 <= k < |s| && s[k] == x;
    var rest := s[..k] + s[k + 1..];
    assert s == s[..k] + [s[k]] + s[k + 1..];
    assert x in multiset(rest);
    var m :| 0 <= m < |rest| && rest[m] == x;
    if m < k {
      assert s[m] == x;
    } else {
      assert s[m + 1] == x;
    }
  }

  lemma ClientTableDistinct(current: seq<ClientTotal>, previous: seq<ClientTotal>, table: seq<ClientRow>)
    requires UniqueNames(current) && UniqueNames(previous)
    requires multiset(table) == multiset(WithPercent(OuterJoin(current, previous)))
    ensures forall i, j :: 0 <= i < j < |table| ==> table[i].name != table[j].name
  {
    var joined := OuterJoin(current, previous);
    var w := WithPercent(joined);
    OuterJoinDistinct(current, previous);
    ClientTableRows(current, previous, table);
    forall i, j | 0 <= i < j < |table|
      ensures table[i].name != table[j].name
    {
      if table[i].name == table[j].name {
        RepeatedElementCount(table, i, j);
        TwoOccurrences(w, table[i]);
        assert false;
      }
    }
  }
}
