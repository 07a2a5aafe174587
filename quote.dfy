/**
 * `Quote.load_quotes_from_csv`: one pass over the rows of the quotes file that adds a
 * quote for every content not yet in the table, followed by a single commit. Reading
 * the file is outside the model; its rows are the input. The session autoflushes, so
 * the lookup for a row also sees the quotes added for earlier rows of the same pass.
 */
module QuoteLoader {

  /** A row of the `quotes` table (its autoincrement id is not modelled). */
  datatype Quote = Quote(content: string, author: string)

  /** A CSV row: its "Quote" and "Author" columns. */
  datatype CsvRow = CsvRow(quote: string, author: string)

  /** Some quote of `qs` has content `c`. */
  predicate HasContent(qs: seq<Quote>, c: string) {
    exists q :: q in qs && q.content == c
  }

  predicate DistinctContents(qs: seq<Quote>) {
    forall i, j :: 0 <= i < j < |qs| ==> qs[i].content != qs[j].content
  }

  /** The quotes a pass over `rows` adds to a table that holds `existing`, in order. */
  function Added(existing: seq<Quote>, rows: seq<CsvRow>): (r: seq<Quote>)
    ensures |r| <= |rows|
  {
    if rows == [] then []
    else
      var prev := Added(existing, rows[..|rows| - 1]);
      var row := rows[|rows| - 1];
      if HasContent(existing + prev, row.quote) then prev
      else prev + [Quote(row.quote, row.author)]
  }

  /** The table's committed rows and the session's pending additions. */
  class QuoteTable {
    var committed: seq<Quote>
    var pending: seq<Quote>
    var commits: nat

    constructor (rows: seq<Quote>)
      ensures committed == rows && pending == [] && commits == 0
    {
      committed, pending, commits := rows, [], 0;
    }

    /** What a query inside the session sees. */
    function Visible(): seq<Quote>
      reads this
    {
      committed + pending
    }

    method LoadQuotesFromCsv(rows: seq<CsvRow>)
      modifies this
      ensures old(committed) <= committed && old(pending) <= committed[|old(committed)|..]
      ensures committed == old(Visible()) + Added(old(Visible()), rows)
      ensures pending == []
      ensures commits == old(commits) + 1
    {
      ghost var base := Visible();
      for i := 0 to |rows|
        invariant committed == old(committed)
        invariant pending == old(pending) + Added(base, rows[..i])
        invariant commits == old(commits)
      {
        assert rows[..i + 1][..i] == rows[..i];
        if !HasContent(committed + pending, rows[i].quote) {
          pending := pending + [Quote(rows[i].quote, rows[i].author)];
        }
      }
      assert rows[..|rows|] == rows;
      committed, pending := committed + pending, [];
      commits := commits + 1;
    }
  }

  /** Every added quote is built from a row (content from "Quote", author from "Author")
      whose content was not in the table. */
  lemma {:induction false} AddedComeFromRows(existing: seq<Quote>, rows: seq<CsvRow>)
    ensures forall q :: q in Added(existing, rows) ==>
              CsvRow(q.content, q.author) in rows && !HasContent(existing, q.content)
  {
    if rows != [] {
      AddedComeFromRows(existing, rows[..|rows| - 1]);
      var row := rows[|rows| - 1];
      forall q | q in Added(existing, rows)
        ensures CsvRow(q.content, q.author) in rows && !HasContent(existing, q.content)
      {
        if q in Added(existing, rows[..|rows| - 1]) {
          assert CsvRow(q.content, q.author) in rows[..|rows| - 1];
        } else {
          assert q == Quote(row.quote, row.author);
          assert !HasContent(existing + Added(existing, rows[..|rows| - 1]), row.quote);
        }
      }
    }
  }

  /** After the pass, the content of every row is in the table. */
  lemma {:induction false} EveryRowPresent(existing: seq<Quote>, rows: seq<CsvRow>)
    ensures forall row :: row in rows ==> HasContent(existing + Added(existing, rows), row.quote)
  {
    if rows != [] {
      var front := rows[..|rows| - 1];
      EveryRowPresent(existing, front);
      var prev := Added(existing, front);
      var last := rows[|rows| - 1];
      assert rows == front + [last];
      forall row | row in rows
        ensures HasContent(existing + Added(existing, rows), row.quote)
      {
        if row in front {
          var w :| w in existing + prev && w.content == row.quote;
          assert w in existing + Added(existing, rows);
        } else if !HasContent(existing + prev, last.quote) {
          assert Quote(last.quote, last.author) in existing + Added(existing, rows);
        }
      }
    }
  }

  /** A table without duplicate contents stays without them: a content repeated in the
      file is added once. */
  lemma {:induction false} NoDuplicates(existing: seq<Quote>, rows: seq<CsvRow>)
    requires DistinctContents(existing)
    ensures DistinctContents(existing + Added(existing, rows))
  {
    if rows != [] {
      var prev := Added(existing, rows[..|rows| - 1]);
      var row := rows[|rows| - 1];
      NoDuplicates(existing, rows[..|rows| - 1]);
      if !HasContent(existing + prev, row.quote) {
        var all := existing + prev + [Quote(row.quote, row.author)];
        assert existing + Added(existing, rows) == all;
        forall i, j | 0 <= i < j < |all|
          ensures all[i].content != all[j].content
        {
          if j == |all| - 1 {
            assert all[i] in existing + prev;
          }
        }
      }
    }
  }

  /** Loading the same file a second time adds nothing. */
  lemma LoadTwiceAddsNothing(existing: seq<Quote>, rows: seq<CsvRow>)
    ensures Added(existing + Added(existing, rows), rows) == []
  {
    EveryRowPresent(existing, rows);
    NothingAbsent(existing + Added(existing, rows), rows);
  }

  /** Rows whose contents are all present add nothing. */
  lemma {:induction false} NothingAbsent(existing: seq<Quote>, rows: seq<CsvRow>)
    requires forall row :: row in rows ==> HasContent(existing, row.quote)
    ensures Added(existing, rows) == []
  {
    if rows != [] {
      assert rows[|rows| - 1] in rows;
      NothingAbsent(existing, rows[..|rows| - 1]);
      assert existing + [] == existing;
    }
  }

  /** Loading once: the table keeps its quotes, gains only quotes from rows it lacked,
      holds every row's content, and stays free of duplicates. */
  method LoadOnce(existing: seq<Quote>, rows: seq<CsvRow>) returns (table: QuoteTable)
    requires DistinctContents(existing)
    ensures existing <= table.committed && table.pending == [] && table.commits == 1
    ensures forall row :: row in rows ==> HasContent(table.committed, row.quote)
    ensures forall q :: q in table.committed[|existing|..] ==> CsvRow(q.content, q.author) in rows
    ensures DistinctContents(table.committed)
  {
    table := new QuoteTable(existing);
    assert table.Visible() == existing;
    table.LoadQuotesFromCsv(rows);
    EveryRowPresent(existing, rows);
    AddedComeFromRows(existing, rows);
    NoDuplicates(existing, rows);
    assert table.committed[|existing|..] == Added(existing, rows);
  }
}
