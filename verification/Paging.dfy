/** Keyset pagination over a table that the server reads in the order of its ids. */
module Paging {

  datatype Row<T> = Row(id: int, content: T)

  const LIMIT := 1000

  /** Ids are unique, and the server lists rows by id. */
  ghost predicate ById<T>(rows: seq<Row<T>>) {
    forall i, j | 0 <= i < j < |rows| :: rows[i].id < rows[j].id
  }

  /** The rows behind an id that satisfy the domain. */
  function After<T>(rows: seq<Row<T>>, domain: T -> bool, last: int): seq<Row<T>> {
    if rows == [] then []
    else
      var n := |rows| - 1;
      After(rows[..n], domain, last) +
      if domain(rows[n].content) && rows[n].id > last then [rows[n]] else []
  }

  /** `search_read(domain + [["id", ">", last]], limit=1000, order="id")` */
  function SearchRead<T>(table: seq<Row<T>>, domain: T -> bool, last: int): seq<Row<T>> {
    var rows := After(table, domain, last);
    if |rows| <= LIMIT then rows else rows[..LIMIT]
  }

  lemma {:induction false} AfterMember<T>(rows: seq<Row<T>>, domain: T -> bool, last: int, r: Row<T>)
    ensures r in After(rows, domain, last) <==> r in rows && domain(r.content) && r.id > last
  {
    if rows != [] {
      var n := |rows| - 1;
      AfterMember(rows[..n], domain, last, r);
      assert rows == rows[..n] + [rows[n]];
    }
  }

  lemma {:induction false} AfterById<T>(rows: seq<Row<T>>, domain: T -> bool, last: int)
    requires ById(rows)
    ensures ById(After(rows, domain, last))
  {
    if rows != [] {
      var n := |rows| - 1;
      var front := After(rows[..n], domain, last);
      AfterById(rows[..n], domain, last);
      forall i | 0 <= i < |front|
        ensures front[i].id < rows[n].id
      {
        AfterMember(rows[..n], domain, last, front[i]);
        assert front[i] in rows[..n];
        var k :| 0 <= k < n && rows[k] == front[i];
      }
    }
  }

  /** What is behind the k-th row found is what was found behind it. */
  lemma {:induction false} AfterRest<T>(rows: seq<Row<T>>, domain: T -> bool, last: int, k: nat)
    requires ById(rows) && 0 < k <= |After(rows, domain, last)|
    ensures After(rows, domain, After(rows, domain, last)[k - 1].id) == After(rows, domain, last)[k..]
  {
    var n := |rows| - 1;
    var found, front := After(rows, domain, last), After(rows[..n], domain, last);
    var mark := found[k - 1];
    AfterMember(rows, domain, last, mark);
    if k <= |front| {
      AfterRest(rows[..n], domain, last, k);
      AfterMember(rows[..n], domain, last, mark);
      assert front[k - 1] == mark && mark in front && mark in rows[..n];
      var i :| 0 <= i < n && rows[i] == mark;
      assert mark.id < rows[n].id;
      assert found[k..] == front[k..] + found[|front|..];
    } else {
      assert mark == rows[n];
      NothingAfter(rows, domain, mark.id);
      assert found[k..] == [];
    }
  }

  lemma NothingAfter<T>(rows: seq<Row<T>>, domain: T -> bool, last: int)
    requires forall i | 0 <= i < |rows| :: rows[i].id <= last
    ensures After(rows, domain, last) == []
  {
    if After(rows, domain, last) != [] {
      AfterMember(rows, domain, last, After(rows, domain, last)[0]);
    }
  }

  /** The loop has collected the first `k` rows of all, and the rest is behind `last`. */
  ghost predicate Reached<T>(table: seq<Row<T>>, domain: T -> bool, all: seq<Row<T>>, k: nat, last: int) {
    && all == After(table, domain, 0) && k <= |all|
    && After(table, domain, last) == all[k..]
    && (k > 0 ==> last == all[k - 1].id)
  }

  lemma PageStep<T>(table: seq<Row<T>>, domain: T -> bool, all: seq<Row<T>>, k: nat, last: int)
    requires ById(table) && Reached(table, domain, all, k, last)
    ensures var page := SearchRead(table, domain, last);
            && k + |page| <= |all| && page == all[k..k + |page|]
            && (|page| < LIMIT ==> k + |page| == |all|)
            && (|page| == LIMIT ==>
                  && page[LIMIT - 1].id > last
                  && Reached(table, domain, all, k + LIMIT, page[LIMIT - 1].id))
  {
    var page := SearchRead(table, domain, last);
    if |page| == LIMIT {
      var mark := page[LIMIT - 1];
      assert mark == all[k + LIMIT - 1];
      assert mark in After(table, domain, last);
      AfterMember(table, domain, last, mark);
      AfterRest(table, domain, 0, k + LIMIT);
    }
  }

  lemma TakeMore<T>(all: seq<T>, k: nat, m: nat)
    requires k + m <= |all|
    ensures all[..k] + all[k..k + m] == all[..k + m]
    ensures k + m == |all| ==> all[..k + m] == all
  {
  }

  /** The rows of the table that satisfy the domain and have a positive id, in the order of ids, which
      are all different. */
  ghost predicate EveryRowOnce<T(!new)>(table: seq<Row<T>>, domain: T -> bool, rows: seq<Row<T>>) {
    && ById(rows)
    && forall r :: r in rows <==> r in table && domain(r.content) && r.id > 0
  }

  lemma AllSelected<T(!new)>(table: seq<Row<T>>, domain: T -> bool)
    requires ById(table)
    ensures EveryRowOnce(table, domain, After(table, domain, 0))
  {
    AfterById(table, domain, 0);
    forall r
      ensures r in After(table, domain, 0) <==> r in table && domain(r.content) && r.id > 0
    {
      AfterMember(table, domain, 0, r);
    }
  }

  /** `source_rows`: however many pages it takes, the loop ends with every row that satisfies the
      domain and has a positive id, once each, in the order of ids; its own progress check never
      fails. */
  method SourceRows<T(!new)>(table: seq<Row<T>>, domain: T -> bool) returns (rows: seq<Row<T>>)
    requires ById(table)
    ensures EveryRowOnce(table, domain, rows)
  {
    ghost var all := After(table, domain, 0);
    AllSelected(table, domain);
    var last := 0;
    rows := [];
    while true
      invariant |rows| <= |all| && rows == all[..|rows|]
      invariant Reached(table, domain, all, |rows|, last)
      decreases |all| - |rows|
    {
      var page := SearchRead(table, domain, last);
      PageStep(table, domain, all, |rows|, last);
      TakeMore(all, |rows|, |page|);
      rows := rows + page;
      if |page| < LIMIT {
        return;
      }
      assert page[|page| - 1].id > last;
      last := page[|page| - 1].id;
    }
  }
}
