// Paged, de-duplicated synchronisation with the subgraph: one channel (loader/syncChannel.go,
// loader/syncChannelCombined.go) and the combined loop over five tables
// (controller/syncCombined.go). The server is a block-sorted sequence of rows that may grow at
// its end between queries.
module Sync {
  import opened Basics

  datatype Row = Row(id: string, block: nat)

  const PAGE_SIZE: nat := 1000
  const MAX_BLOCK: nat := 999999999

  // ---------------------------------------------------------------------------------------------
  // The server

  // Rows of a block range, in server order.
  function Range(rows: seq<Row>, lo: nat, hi: nat): seq<Row> {
    if rows == [] then []
    else
      var rest := Range(rows[..|rows| - 1], lo, hi);
      if lo <= rows[|rows| - 1].block <= hi then rest + [rows[|rows| - 1]] else rest
  }

  // What one query returns: the first page of the range.
  function Page(rows: seq<Row>, lo: nat, hi: nat): seq<Row> {
    var all := Range(rows, lo, hi);
    if |all| <= PAGE_SIZE then all else all[..PAGE_SIZE]
  }

  predicate SortedByBlock(rows: seq<Row>) {
    |rows| <= 1 || (rows[|rows| - 2].block <= rows[|rows| - 1].block && SortedByBlock(rows[..|rows| - 1]))
  }

  lemma {:induction false} SortedPair(rows: seq<Row>, i: nat, j: nat)
    requires SortedByBlock(rows) && i <= j < |rows|
    ensures rows[i].block <= rows[j].block
  {
    if i < j {
      SortedPair(rows[..|rows| - 1], i, if j < |rows| - 1 then j else j - 1);
    }
  }

  predicate UniqueIds(rows: seq<Row>) {
    rows == [] || (rows[|rows| - 1].id !in Ids(rows[..|rows| - 1]) && UniqueIds(rows[..|rows| - 1]))
  }

  function Ids(rows: seq<Row>): set<string> {
    if rows == [] then {} else Ids(rows[..|rows| - 1]) + {rows[|rows| - 1].id}
  }

  lemma {:induction false} IdsAppend(a: seq<Row>, r: Row)
    ensures Ids(a + [r]) == Ids(a) + {r.id}
  {
    assert (a + [r])[..|a|] == a;
  }

  lemma {:induction false} IdsConcat(a: seq<Row>, b: seq<Row>)
    ensures Ids(a + b) == Ids(a) + Ids(b)
  {
    if b == [] {
      assert a + b == a;
    } else {
      assert (a + b)[..|a + b| - 1] == a + b[..|b| - 1];
      IdsConcat(a, b[..|b| - 1]);
    }
  }

  lemma {:induction false} IdsMember(rows: seq<Row>, i: nat)
    requires i < |rows|
    ensures rows[i].id in Ids(rows)
  {
    if i < |rows| - 1 {
      IdsMember(rows[..|rows| - 1], i);
    }
  }

  lemma {:induction false} UniqueAfter(rows: seq<Row>, n: nat, j: nat)
    requires UniqueIds(rows) && n <= j < |rows|
    ensures UniqueIds(rows[..n]) && rows[j].id !in Ids(rows[..n])
  {
    var last := |rows| - 1;
    if j < last {
      assert rows[..last][..n] == rows[..n];
      UniqueAfter(rows[..last], n, j);
    } else if n < last {
      assert rows[..last][..n] == rows[..n] && rows[..last] == rows[..n] + rows[n..last];
      UniqueAfter(rows[..last], n, last - 1);
      IdsConcat(rows[..n], rows[n..last]);
    }
  }

  // How many leading rows lie below block b.
  function Below(rows: seq<Row>, b: nat): (n: nat)
    ensures n <= |rows|
    ensures forall i :: 0 <= i < n ==> rows[i].block < b
    ensures n < |rows| ==> b <= rows[n].block
  {
    BelowAmong(rows, b, |rows|)
  }

  function BelowAmong(rows: seq<Row>, b: nat, n: nat): (m: nat)
    requires n <= |rows|
    ensures m <= n
    ensures forall i :: 0 <= i < m ==> rows[i].block < b
    ensures m < n ==> b <= rows[m].block
  {
    if n == 0 then 0
    else
      var m := BelowAmong(rows, b, n - 1);
      if m == n - 1 && rows[m].block < b then n else m
  }

  // The last row of a sorted range, if any, is no later than the last row of the table.
  lemma {:induction false} RangeLast(rows: seq<Row>, lo: nat, hi: nat)
    requires SortedByBlock(rows)
    ensures var R := Range(rows, lo, hi); R != [] ==> rows != [] && R[|R| - 1].block <= rows[|rows| - 1].block
    ensures SortedByBlock(Range(rows, lo, hi))
  {
    if rows != [] {
      var R := Range(rows[..|rows| - 1], lo, hi);
      RangeLast(rows[..|rows| - 1], lo, hi);
      assert (R + [rows[|rows| - 1]])[..|R|] == R;
    }
  }

  lemma {:induction false} RangeFrom(rows: seq<Row>, lo: nat, hi: nat)
    ensures forall i :: 0 <= i < |Range(rows, lo, hi)| ==> lo <= Range(rows, lo, hi)[i].block
  {
    if rows != [] {
      RangeFrom(rows[..|rows| - 1], lo, hi);
    }
  }

  lemma {:induction false} RangeIds(rows: seq<Row>, lo: nat, hi: nat)
    ensures Ids(Range(rows, lo, hi)) <= Ids(rows)
  {
    if rows != [] {
      var init, last := rows[..|rows| - 1], rows[|rows| - 1];
      RangeIds(init, lo, hi);
      IdsAppend(Range(init, lo, hi), last);
    }
  }

  lemma {:induction false} RangeConcat(a: seq<Row>, b: seq<Row>, lo: nat, hi: nat)
    ensures Range(a + b, lo, hi) == Range(a, lo, hi) + Range(b, lo, hi)
  {
    if b == [] {
      assert a + b == a;
    } else {
      var n := |b| - 1;
      assert (a + b)[..|a + b| - 1] == a + b[..n];
      RangeConcat(a, b[..n], lo, hi);
    }
  }

  // A query that starts further on sees a suffix of what an earlier one sees.
  lemma {:induction false} RangeSuffix(rows: seq<Row>, lo: nat, c: nat, hi: nat)
    requires SortedByBlock(rows) && lo <= c
    ensures Range(rows, c, hi) == Range(rows, lo, hi)[Below(Range(rows, lo, hi), c)..]
  {
    if rows != [] {
      var init, last := rows[..|rows| - 1], rows[|rows| - 1];
      var R := Range(init, lo, hi);
      RangeSuffix(init, lo, c, hi);
      if lo <= last.block <= hi {
        RangeLast(init, lo, hi);
        BelowAppend(R, last, c);
        if last.block >= c { DropAppend(R, last, Below(R, c)); }
      }
    }
  }

  lemma DropAppend(R: seq<Row>, r: Row, n: nat)
    requires n <= |R|
    ensures (R + [r])[n..] == R[n..] + [r]
  {
  }

  lemma {:induction false} BelowAppend(R: seq<Row>, r: Row, c: nat)
    requires SortedByBlock(R) && (R != [] ==> R[|R| - 1].block <= r.block)
    ensures Below(R + [r], c) == if r.block < c then |R| + 1 else Below(R, c)
    ensures r.block < c ==> Below(R, c) == |R|
  {
    if r.block < c {
      AllBelow(R, r.block);
      BelowIs(R + [r], c, |R| + 1);
    } else {
      BelowIs(R + [r], c, Below(R, c));
    }
  }

  lemma {:induction false} AllBelow(R: seq<Row>, m: nat)
    requires SortedByBlock(R) && (R != [] ==> R[|R| - 1].block <= m)
    ensures forall i :: 0 <= i < |R| ==> R[i].block <= m
  {
    forall i | 0 <= i < |R| ensures R[i].block <= m {
      SortedPair(R, i, |R| - 1);
    }
  }

  // Below is the only split of the rows with smaller blocks before it and the others from it on.
  lemma BelowIs(R: seq<Row>, c: nat, n: nat)
    requires n <= |R| && (forall i :: 0 <= i < n ==> R[i].block < c) && (n < |R| ==> c <= R[n].block)
    ensures Below(R, c) == n
  {
  }

  // Where the page ends that starts at row p.
  function PageEnd(R: seq<Row>, p: nat): (q: nat)
    requires p <= |R|
    ensures p <= q <= |R|
  {
    if p + PAGE_SIZE < |R| then p + PAGE_SIZE else |R|
  }

  lemma {:induction false} PageOf(rows: seq<Row>, lo: nat, c: nat, hi: nat)
    requires SortedByBlock(rows) && lo <= c
    ensures var R := Range(rows, lo, hi); var p := Below(R, c);
      Page(rows, c, hi) == R[p..PageEnd(R, p)]
  {
    hide Range, SortedByBlock;
    RangeSuffix(rows, lo, c, hi);
  }

  // ---------------------------------------------------------------------------------------------
  // One channel

  // `consumed` lists the rows handed to the consumer so far.
  datatype Channel = Channel(idsObserved: set<string>, consumed: seq<Row>, rowsIngested: nat)

  const EMPTY_CHANNEL := Channel({}, [], 0)

  // The observed ids are those of the consumed rows, and no id was consumed twice.
  ghost predicate ChannelInv(ch: Channel) {
    ch.idsObserved == Ids(ch.consumed) && UniqueIds(ch.consumed)
  }

  function Consume(ch: Channel, r: Row): Channel {
    Channel(ch.idsObserved + {r.id}, ch.consumed + [r], ch.rowsIngested + 1)
  }

  datatype Ingest = Ingest(ch: Channel, nIngested: nat, lastObs: nat)

  // Folding a page into the channel: the channel, the number of fresh rows, and the highest
  // block among `lastObs` and the fresh rows. A row seen before reports block -1.
  function IngestRows(ch: Channel, rows: seq<Row>, lastObs: nat): Ingest {
    if rows == [] then Ingest(ch, 0, lastObs)
    else IngestRow(IngestRows(ch, rows[..|rows| - 1], lastObs), rows[|rows| - 1])
  }

  function IngestRow(i: Ingest, r: Row): Ingest {
    if r.id in i.ch.idsObserved then i
    else Ingest(Consume(i.ch, r), i.nIngested + 1, if r.block > i.lastObs then r.block else i.lastObs)
  }

  lemma {:induction false} IngestRowsKeepsInv(ch: Channel, rows: seq<Row>, lastObs: nat)
    requires ChannelInv(ch)
    ensures ChannelInv(IngestRows(ch, rows, lastObs).ch)
    ensures ch.idsObserved <= IngestRows(ch, rows, lastObs).ch.idsObserved
  {
    if rows != [] {
      var r := rows[|rows| - 1];
      IngestRowsKeepsInv(ch, rows[..|rows| - 1], lastObs);
      var c := IngestRows(ch, rows[..|rows| - 1], lastObs).ch;
      IdsAppend(c.consumed, r);
      assert (c.consumed + [r])[..|c.consumed|] == c.consumed;
    }
  }

  lemma {:induction false} IngestedCount(ch: Channel, rows: seq<Row>, lastObs: nat)
    ensures |IngestRows(ch, rows, lastObs).ch.consumed| == |ch.consumed| + IngestRows(ch, rows, lastObs).nIngested
  {
    if rows != [] { IngestedCount(ch, rows[..|rows| - 1], lastObs); }
  }

  lemma FreshRow(ch: Channel, rows: seq<Row>, lastObs: nat) returns (x: string)
    requires ChannelInv(ch) && IngestRows(ch, rows, lastObs).nIngested > 0
    ensures x in Ids(rows) && x !in ch.idsObserved && x in IngestRows(ch, rows, lastObs).ch.idsObserved
  {
    var init, r := rows[..|rows| - 1], rows[|rows| - 1];
    IngestRowsKeepsInv(ch, init, lastObs);
    if IngestRows(ch, init, lastObs).nIngested > 0 {
      x := FreshRow(ch, init, lastObs);
    } else {
      x := r.id;
    }
  }

  // ---------------------------------------------------------------------------------------------
  // The prefix invariant: of the rows R a channel is after, it has consumed exactly the first k,
  // in server order, after the rows `before`.

  ghost predicate Prefix(ch: Channel, before: seq<Row>, R: seq<Row>, k: nat) {
    && k <= |R|
    && ch.consumed == before + R[..k]
    && ch.idsObserved == Ids(before) + Ids(R[..k])
    && Fresh(before, R)
  }

  // No row of R repeats an id of another one or of the rows before.
  ghost predicate Fresh(before: seq<Row>, R: seq<Row>) {
    UniqueIds(before) && UniqueIds(R) && Ids(before) !! Ids(R)
  }

  lemma {:induction false} UniqueConcat(a: seq<Row>, b: seq<Row>)
    requires Fresh(a, b)
    ensures UniqueIds(a + b)
  {
    if b == [] {
      assert a + b == a;
    } else {
      var n := |b| - 1;
      assert (a + b)[..|a + b| - 1] == a + b[..n];
      UniqueConcat(a, b[..n]);
      IdsConcat(a, b[..n]);
    }
  }

  lemma PrefixInv(ch: Channel, before: seq<Row>, R: seq<Row>, k: nat)
    requires Prefix(ch, before, R, k)
    ensures ChannelInv(ch)
  {
    assert R == R[..k] + R[k..];
    IdsConcat(R[..k], R[k..]);
    IdsConcat(before, R[..k]);
    if k < |R| {
      UniqueAfter(R, k, k);
    } else {
      assert R[..k] == R;
    }
    UniqueConcat(before, R[..k]);
  }

  // One row: it is known when it lies in the prefix, and extends the prefix when it comes next.
  lemma PrefixRow(i: Ingest, before: seq<Row>, R: seq<Row>, k: nat, j: nat)
    requires Prefix(i.ch, before, R, k) && j <= k && j < |R|
    ensures j < k ==> IngestRow(i, R[j]) == i
    ensures j == k ==> R[j].id !in i.ch.idsObserved && Prefix(Consume(i.ch, R[j]), before, R, k + 1)
  {
    if j < k {
      IdsMember(R[..k], j);
    } else {
      UniqueAfter(R, k, j);
      IdsMember(R, j);
      assert R[..k + 1] == R[..k] + [R[k]];
      IdsAppend(R[..k], R[k]);
    }
  }

  lemma SliceInit(R: seq<Row>, i: nat, j: nat)
    requires i < j <= |R|
    ensures R[i..j] != [] && R[i..j][..|R[i..j]| - 1] == R[i..j - 1] && R[i..j][|R[i..j]| - 1] == R[j - 1]
  {
  }

  // A page R[p..q] that starts inside the prefix extends it to the end of the page.
  lemma {:induction false} PageExtendsPrefix(ch: Channel, before: seq<Row>, R: seq<Row>, k: nat, p: nat, q: nat,
          lastObs: nat)
    requires Prefix(ch, before, R, k) && p <= k && p <= q <= |R|
    ensures q <= k ==> IngestRows(ch, R[p..q], lastObs) == Ingest(ch, 0, lastObs)
    ensures k <= q ==>
      Prefix(IngestRows(ch, R[p..q], lastObs).ch, before, R, q) && IngestRows(ch, R[p..q], lastObs).nIngested == q - k
    decreases q
  {
    if p < q {
      SliceInit(R, p, q);
      PageExtendsPrefix(ch, before, R, k, p, q - 1, lastObs);
      PrefixRow(IngestRows(ch, R[p..q - 1], lastObs), before, R, if q <= k then k else q - 1, q - 1);
    }
  }

  function MaxBlock(rows: seq<Row>, m: nat): nat {
    if rows == [] then m
    else
      var n := MaxBlock(rows[..|rows| - 1], m);
      if rows[|rows| - 1].block > n then rows[|rows| - 1].block else n
  }

  // The last row of a page that reaches beyond the prefix is fresh.
  lemma PageEndsFresh(ch: Channel, before: seq<Row>, R: seq<Row>, k: nat, p: nat, q: nat, lastObs: nat)
    requires Prefix(ch, before, R, k) && p <= k < q <= |R|
    ensures R[q - 1].id !in IngestRows(ch, R[p..q - 1], lastObs).ch.idsObserved
  {
    PageExtendsPrefix(ch, before, R, k, p, q - 1, lastObs);
    PrefixRow(IngestRows(ch, R[p..q - 1], lastObs), before, R, q - 1, q - 1);
  }

  // The cursor a page reports is the highest block among its fresh rows.
  lemma {:induction false} PageLastObs(ch: Channel, before: seq<Row>, R: seq<Row>, k: nat, p: nat, q: nat, lastObs: nat)
    requires Prefix(ch, before, R, k) && p <= k <= q <= |R|
    ensures IngestRows(ch, R[p..q], lastObs).lastObs == MaxBlock(R[k..q], lastObs)
    decreases q
  {
    hide Prefix;
    if k == q {
      assert R[k..q] == [];
      PageExtendsPrefix(ch, before, R, k, p, q, lastObs);
    } else {
      SliceInit(R, p, q);
      SliceInit(R, k, q);
      PageLastObs(ch, before, R, k, p, q - 1, lastObs);
      PageEndsFresh(ch, before, R, k, p, q, lastObs);
    }
  }

  lemma {:induction false} SortedMax(R: seq<Row>, i: nat, j: nat, m: nat)
    requires SortedByBlock(R) && i < j <= |R|
    ensures MaxBlock(R[i..j], m) == if R[j - 1].block > m then R[j - 1].block else m
    decreases j
  {
    SliceInit(R, i, j);
    if i < j - 1 {
      SortedMax(R, i, j - 1, m);
      SortedPair(R, j - 2, j - 1);
    }
  }

  // ---------------------------------------------------------------------------------------------
  // What becomes of a query: it is answered, its answer cannot be decoded, or it fails.
  datatype Attempt = Answers | Undecodable | Fails

  datatype TableSync = TableSync(ch: Channel, nIngested: nat, ok: bool)

  function Rest(attempts: seq<Attempt>): (r: seq<Attempt>)
    ensures |r| <= |attempts|
  {
    if attempts == [] then attempts else attempts[1..]
  }

  // SyncTableToSubgraph: page until a page brings nothing fresh. `attempts` says what becomes of
  // the next queries, all later ones being answered; an undecodable answer is asked for again, a
  // failed query ends the sync.
  function SyncTable(ch: Channel, server: seq<Row>, lastObs: nat, endBlock: nat, attempts: seq<Attempt>): TableSync
    requires ChannelInv(ch)
    decreases |attempts|, Ids(server) - ch.idsObserved
  {
    if attempts != [] && attempts[0].Fails? then TableSync(ch, 0, false)
    else if attempts != [] && attempts[0].Undecodable? then
      SyncTable(ch, server, lastObs, endBlock, attempts[1..])
    else
      var page := Page(server, lastObs, endBlock);
      var Ingest(c, n, obs) := IngestRows(ch, page, lastObs);
      PageProgress(ch, server, lastObs, endBlock);
      if n == 0 then TableSync(c, 0, true)
      else
        var rest := SyncTable(c, server, obs, endBlock, Rest(attempts));
        TableSync(rest.ch, n + rest.nIngested, rest.ok)
  }

  // A page with a fresh row leaves fewer rows of the server unobserved.
  lemma {:induction false} PageProgress(ch: Channel, server: seq<Row>, lo: nat, hi: nat)
    requires ChannelInv(ch)
    ensures var Ingest(c, n, _) := IngestRows(ch, Page(server, lo, hi), lo);
      && ChannelInv(c)
      && (n > 0 ==> Ids(server) - c.idsObserved < Ids(server) - ch.idsObserved)
  {
    var page, all := Page(server, lo, hi), Range(server, lo, hi);
    IngestRowsKeepsInv(ch, page, lo);
    if IngestRows(ch, page, lo).nIngested > 0 {
      var x := FreshRow(ch, page, lo);
      assert all == page + all[|page|..];
      IdsConcat(page, all[|page|..]);
      RangeIds(server, lo, hi);
      assert x in Ids(server) - ch.idsObserved;
    }
  }

  // No block fills a page that has a successor in the range.
  predicate PagesSpanBlocks(R: seq<Row>) {
    forall i, j :: 0 <= i < |R| && 0 <= j < |R| - 1 && j == i + PAGE_SIZE - 1 ==> R[i].block < R[j].block
  }

  // ---------------------------------------------------------------------------------------------
  // A channel working through the rows R, of which it has consumed k after the rows `before`

  // The block of the last of the first k rows.
  function Reached(R: seq<Row>, start: nat, k: nat): nat
    requires k <= |R|
  {
    if k == 0 then start else R[k - 1].block
  }

  lemma BelowReached(R: seq<Row>, start: nat, cursor: nat, k: nat)
    requires (forall i :: 0 <= i < |R| ==> start <= R[i].block) && k <= |R| && cursor <= Reached(R, start, k)
    ensures Below(R, cursor) <= k
    ensures k > 0 ==> Below(R, cursor) < k
  {
    if |R| > 0 { assert start <= R[0].block; }
  }

  // One page R[p..q] that starts inside the prefix: the prefix grows to its end and the cursor
  // follows.
  lemma {:induction false} PageStep(ch: Channel, before: seq<Row>, R: seq<Row>, start: nat, cursor: nat, k: nat,
          p: nat, q: nat)
    requires Prefix(ch, before, R, k) && p <= k && p <= q <= |R|
    requires SortedByBlock(R) && (q > k ==> cursor <= R[q - 1].block)
    ensures IngestRows(ch, R[p..q], cursor).nIngested == Max(k, q) - k
    ensures IngestRows(ch, R[p..q], cursor).lastObs == if q <= k then cursor else R[q - 1].block
    ensures Prefix(IngestRows(ch, R[p..q], cursor).ch, before, R, Max(k, q))
    ensures q <= k ==> IngestRows(ch, R[p..q], cursor).ch == ch
  {
    PageExtendsPrefix(ch, before, R, k, p, q, cursor);
    if k < q {
      PageLastObs(ch, before, R, k, p, q, cursor);
      SortedMax(R, k, q, cursor);
    }
  }

  // The page a sync in progress asks for is R[p..q], where the first p rows lie below the cursor.
  lemma {:induction false} SyncPage(R: seq<Row>, k: nat, server: seq<Row>, start: nat, endBlock: nat, p: nat, q: nat)
    requires SortedByBlock(server) && R == Range(server, start, endBlock) && k <= |R|
    requires p == Below(R, Reached(R, start, k)) && q == PageEnd(R, p)
    ensures Page(server, Reached(R, start, k), endBlock) == R[p..q]
    ensures SortedByBlock(R) && p <= k
    ensures k < q ==> Reached(R, start, k) <= R[q - 1].block
  {
    RangeFrom(server, start, endBlock);
    RangeLast(server, start, endBlock);
    PagePosition(R, k, start, p, q);
    PageOf(server, start, Reached(R, start, k), endBlock);
  }

  lemma {:induction false} PagePosition(R: seq<Row>, k: nat, start: nat, p: nat, q: nat)
    requires SortedByBlock(R) && k <= |R| && forall i :: 0 <= i < |R| ==> start <= R[i].block
    requires p == Below(R, Reached(R, start, k)) && p <= q <= |R|
    ensures p <= k && start <= Reached(R, start, k)
    ensures k < q ==> Reached(R, start, k) <= R[q - 1].block
  {
    BelowReached(R, start, Reached(R, start, k), k);
    if 0 < k < q { SortedPair(R, k - 1, q - 1); }
  }

  // One round of the paging loop.
  lemma SyncStep(ch: Channel, before: seq<Row>, R: seq<Row>, k: nat, server: seq<Row>, start: nat,
          endBlock: nat, i: Ingest) returns (next: nat)
    requires SortedByBlock(server) && ChannelInv(ch) && R == Range(server, start, endBlock) && Prefix(ch, before, R, k)
    requires i == IngestRows(ch, Page(server, Reached(R, start, k), endBlock), Reached(R, start, k))
    ensures next == Max(k, PageEnd(R, Below(R, Reached(R, start, k))))
    ensures i.nIngested == next - k && i.lastObs == Reached(R, start, next)
    ensures Prefix(i.ch, before, R, next) && ChannelInv(i.ch)
    ensures next > k ==> Ids(server) - i.ch.idsObserved < Ids(server) - ch.idsObserved
  {
    hide Range, Page, IngestRows, SortedByBlock, ChannelInv, Ids;
    var cursor := Reached(R, start, k);
    var p := Below(R, cursor);
    var q := PageEnd(R, p);
    next := Max(k, q);
    SyncPage(R, k, server, start, endBlock, p, q);
    assert ChannelInv(i.ch) && (i.nIngested > 0 ==> Ids(server) - i.ch.idsObserved < Ids(server) - ch.idsObserved) by {
      PageProgress(ch, server, cursor, endBlock);
    }
    PageStep(ch, before, R, start, cursor, k, p, q);
  }

  lemma SyncTablePrefix(ch: Channel, before: seq<Row>, R: seq<Row>, k: nat, server: seq<Row>,
          start: nat, endBlock: nat, attempts: seq<Attempt>)
    returns (final: nat)
    requires SortedByBlock(server) && ChannelInv(ch) && R == Range(server, start, endBlock) && Prefix(ch, before, R, k)
    ensures final == k + SyncTable(ch, server, Reached(R, start, k), endBlock, attempts).nIngested
    ensures Prefix(SyncTable(ch, server, Reached(R, start, k), endBlock, attempts).ch, before, R, final)
    ensures SyncTable(ch, server, Reached(R, start, k), endBlock, attempts).ok && PagesSpanBlocks(R) ==> final == |R|
    decreases |attempts|, Ids(server) - ch.idsObserved
  {
    hide Range, Page, IngestRows, SortedByBlock, ChannelInv, Ids;
    var cursor := Reached(R, start, k);
    if attempts != [] && attempts[0].Fails? {
      final := k;
    } else if attempts != [] && attempts[0].Undecodable? {
      final := SyncTablePrefix(ch, before, R, k, server, start, endBlock, attempts[1..]);
    } else {
      var i := IngestRows(ch, Page(server, cursor, endBlock), cursor);
      var next := SyncStep(ch, before, R, k, server, start, endBlock, i);
      if next > k {
        final := SyncTablePrefix(i.ch, before, R, next, server, start, endBlock, Rest(attempts));
      } else {
        final := k;
        assert PagesSpanBlocks(R) ==> k == |R| by {
          RangeLast(server, start, endBlock);
          if PagesSpanBlocks(R) && k < |R| { SpanningPagesProgress(R, start, k); }
        }
      }
    }
  }

  // When pages span blocks, only a finished channel sees a page without fresh rows.
  lemma {:induction false} SpanningPagesProgress(R: seq<Row>, start: nat, k: nat)
    requires SortedByBlock(R) && PagesSpanBlocks(R) && k < |R|
    ensures Below(R, Reached(R, start, k)) + PAGE_SIZE > k
  {
    var p := Below(R, Reached(R, start, k));
    if p + PAGE_SIZE <= k {
      assert R[p].block < R[p + PAGE_SIZE - 1].block;
      SortedPair(R, p + PAGE_SIZE - 1, k - 1);
    }
  }

  // Once some block overfills a page, the cursor never gets past that block.
  lemma {:induction false} SyncTableStopsAtFullBlock(ch: Channel, before: seq<Row>, R: seq<Row>, k: nat,
          server: seq<Row>, start: nat, endBlock: nat, attempts: seq<Attempt>, i: nat)
    requires SortedByBlock(server) && ChannelInv(ch) && R == Range(server, start, endBlock) && Prefix(ch, before, R, k)
    requires i + PAGE_SIZE < |R| && R[i].block == R[i + PAGE_SIZE - 1].block && k <= i + PAGE_SIZE
    ensures k + SyncTable(ch, server, Reached(R, start, k), endBlock, attempts).nIngested <= i + PAGE_SIZE
    decreases |attempts|, Ids(server) - ch.idsObserved
  {
    hide Range, Page, IngestRows, SortedByBlock, ChannelInv, Ids;
    var cursor := Reached(R, start, k);
    if attempts != [] && attempts[0].Undecodable? {
      SyncTableStopsAtFullBlock(ch, before, R, k, server, start, endBlock, attempts[1..], i);
    } else if attempts == [] || attempts[0].Answers? {
      var page := IngestRows(ch, Page(server, cursor, endBlock), cursor);
      var next := SyncStep(ch, before, R, k, server, start, endBlock, page);
      assert next <= i + PAGE_SIZE by {
        RangeLast(server, start, endBlock);
        RangeFrom(server, start, endBlock);
        FullBlockHoldsCursor(R, start, k, i);
      }
      if next > k {
        SyncTableStopsAtFullBlock(page.ch, before, R, next, server, start, endBlock, Rest(attempts), i);
      }
    }
  }

  lemma {:induction false} FullBlockHoldsCursor(R: seq<Row>, start: nat, k: nat, i: nat)
    requires SortedByBlock(R) && forall j :: 0 <= j < |R| ==> start <= R[j].block
    requires i + PAGE_SIZE <= |R| && R[i].block == R[i + PAGE_SIZE - 1].block && k <= i + PAGE_SIZE
    ensures Below(R, Reached(R, start, k)) <= i
  {
    if k > 0 { SortedPair(R, k - 1, i + PAGE_SIZE - 1); }
  }

  // A sync of a range nothing of which was observed hands over a prefix of the range in server
  // order, each row once; if none of its queries fails it hands over the whole range exactly when
  // no block fills a page that is followed by further rows.
  lemma {:induction false} SyncTableExactlyOnce(ch: Channel, server: seq<Row>, startBlock: nat, endBlock: nat,
          attempts: seq<Attempt>)
    requires ChannelInv(ch) && SortedByBlock(server)
    requires Fresh(ch.consumed, Range(server, startBlock, endBlock))
    ensures var R := Range(server, startBlock, endBlock);
      var res := SyncTable(ch, server, startBlock, endBlock, attempts);
      && ChannelInv(res.ch)
      && res.nIngested <= |R|
      && res.ch.consumed == ch.consumed + R[..res.nIngested]
      && (res.ok ==> (res.nIngested == |R| <==> PagesSpanBlocks(R)))
  {
    hide Range, SyncTable, SortedByBlock, PagesSpanBlocks;
    var R := Range(server, startBlock, endBlock);
    var res := SyncTable(ch, server, startBlock, endBlock, attempts);
    var final := SyncTablePrefix(ch, ch.consumed, R, 0, server, startBlock, endBlock, attempts);
    PrefixInv(res.ch, ch.consumed, R, final);
    if !PagesSpanBlocks(R) {
      SyncTableIncomplete(ch, R, server, startBlock, endBlock, attempts);
    }
  }

  lemma {:induction false} SyncTableIncomplete(ch: Channel, R: seq<Row>, server: seq<Row>, startBlock: nat,
          endBlock: nat, attempts: seq<Attempt>)
    requires ChannelInv(ch) && SortedByBlock(server) && R == Range(server, startBlock, endBlock)
    requires Fresh(ch.consumed, R) && !PagesSpanBlocks(R)
    ensures SyncTable(ch, server, startBlock, endBlock, attempts).nIngested < |R|
  {
    var i, j :| 0 <= i < |R| && 0 <= j < |R| - 1 && j == i + PAGE_SIZE - 1 && R[i].block >= R[j].block;
    assert R[i].block == R[j].block by {
      RangeLast(server, startBlock, endBlock);
      SortedPair(R, i, j);
    }
    SyncTableStopsAtFullBlock(ch, ch.consumed, R, 0, server, startBlock, endBlock, attempts, i);
  }

  // ---------------------------------------------------------------------------------------------
  // Which rows that are, of the server's

  // The rows of blocks lo to hi are those from row a to row b.
  ghost predicate Cut(rows: seq<Row>, lo: nat, hi: nat, a: nat, b: nat) {
    a <= b <= |rows| && forall i :: 0 <= i < |rows| ==> (a <= i < b <==> lo <= rows[i].block <= hi)
  }

  lemma CutAt(rows: seq<Row>, lo: nat, hi: nat, a: nat, b: nat, i: nat)
    requires Cut(rows, lo, hi, a, b) && i < |rows|
    ensures a <= i < b <==> lo <= rows[i].block <= hi
  {
  }

  lemma {:induction false} RangeIsStretch(rows: seq<Row>, lo: nat, hi: nat) returns (a: nat, b: nat)
    requires SortedByBlock(rows)
    ensures Cut(rows, lo, hi, a, b) && a <= b <= |rows| && Range(rows, lo, hi) == rows[a..b]
  {
    if rows == [] {
      a, b := 0, 0;
    } else {
      var n := |rows| - 1;
      a, b := RangeIsStretch(rows[..n], lo, hi);
      CutNext(rows, lo, hi, a, b);
      hide Cut, SortedByBlock;
      if lo <= rows[n].block <= hi {
        if a == b { a, b := n, n; }
        StretchNext(rows, a);
        b := n + 1;
      } else {
        StretchOfInit(rows, a, b);
      }
    }
  }

  lemma StretchNext(rows: seq<Row>, a: nat)
    requires a < |rows|
    ensures rows[a..] == rows[..|rows| - 1][a..] + [rows[|rows| - 1]] && rows[a..|rows|] == rows[a..]
    ensures rows[..|rows| - 1][a..|rows| - 1] == rows[..|rows| - 1][a..]
    ensures a == |rows| - 1 ==> rows[..a][a..a] == []
  {
  }

  lemma StretchOfInit(rows: seq<Row>, a: nat, b: nat)
    requires a <= b < |rows|
    ensures rows[a..b] == rows[..|rows| - 1][a..b]
  {
  }

  lemma {:induction false} CutNext(rows: seq<Row>, lo: nat, hi: nat, a: nat, b: nat)
    requires SortedByBlock(rows) && rows != [] && Cut(rows[..|rows| - 1], lo, hi, a, b)
    ensures var n := |rows| - 1;
      if lo <= rows[n].block <= hi then (a < b ==> b == n) && Cut(rows, lo, hi, if a == b then n else a, n + 1)
      else Cut(rows, lo, hi, a, b)
  {
    hide SortedByBlock;
    var n := |rows| - 1;
    assert forall i :: 0 <= i < n ==> rows[..n][i] == rows[i];
    if a < b {
      SortedPair(rows, a, n);
      SortedPair(rows, a, b);
      SortedPair(rows, b, n);
    }
  }

  lemma {:induction false} IdsAre(rows: seq<Row>)
    ensures forall x :: x in Ids(rows) <==> exists i :: 0 <= i < |rows| && rows[i].id == x
  {
    forall x | x in Ids(rows) ensures exists i :: 0 <= i < |rows| && rows[i].id == x { var i := IdAt(rows, x); }
    forall i | 0 <= i < |rows| ensures rows[i].id in Ids(rows) { IdsMember(rows, i); }
  }

  lemma {:induction false} IdAt(rows: seq<Row>, x: string) returns (i: nat)
    requires x in Ids(rows)
    ensures i < |rows| && rows[i].id == x
  {
    if rows[|rows| - 1].id == x {
      i := |rows| - 1;
    } else {
      i := IdAt(rows[..|rows| - 1], x);
    }
  }

  lemma {:induction false} UniqueIdsAre(rows: seq<Row>)
    ensures UniqueIds(rows) <==> forall i, j :: 0 <= i < j < |rows| ==> rows[i].id != rows[j].id
  {
    if rows != [] {
      var init, n := rows[..|rows| - 1], |rows| - 1;
      UniqueIdsAre(init);
      IdsAre(init);
      assert forall i :: 0 <= i < n ==> init[i] == rows[i];
      if UniqueIds(rows) {
        forall i, j | 0 <= i < j < |rows| ensures rows[i].id != rows[j].id {
          assert init[i].id == rows[i].id;
        }
      }
    }
  }

  // These are rows of the server from row a on, and no row before a is of block lo or later.
  ghost predicate StretchFrom(rows: seq<Row>, server: seq<Row>, lo: nat, a: nat) {
    a + |rows| <= |server| && rows == server[a..a + |rows|] && forall i :: 0 <= i < a ==> server[i].block < lo
  }

  // `after` is `before` and then rows of the server of blocks lo to hi, in the server's order, from
  // the first one on and without leaving one out, none of them for a second time.
  ghost predicate HandedOver(before: seq<Row>, after: seq<Row>, server: seq<Row>, lo: nat, hi: nat) {
    && before <= after
    && (exists a: nat :: StretchFrom(after[|before|..], server, lo, a))
    && (forall i :: |before| <= i < |after| ==> lo <= after[i].block <= hi)
    && (forall i, j :: 0 <= i < j < |after| ==> after[i].id != after[j].id)
  }

  // Every row of the server of blocks lo to hi is there.
  ghost predicate AllHandedOver(after: seq<Row>, server: seq<Row>, lo: nat, hi: nat) {
    forall i :: 0 <= i < |server| && lo <= server[i].block <= hi ==> server[i] in after
  }

  // Some block fills a page of a thousand rows, and a row of the range follows.
  ghost predicate PageBound(server: seq<Row>, lo: nat, hi: nat) {
    exists i: nat :: FillsPage(server, lo, hi, i)
  }

  ghost predicate FillsPage(server: seq<Row>, lo: nat, hi: nat, i: nat) {
    i + 1000 < |server| && lo <= server[i].block == server[i + 999].block && server[i + 1000].block <= hi
  }

  // No row of blocks lo to hi has an id that was seen, or that another of them has.
  ghost predicate NewToAll(ch: Channel, server: seq<Row>, lo: nat, hi: nat) {
    forall i :: 0 <= i < |server| && lo <= server[i].block <= hi ==>
      && server[i].id !in ch.idsObserved
      && forall j :: i < j < |server| && server[j].block <= hi ==> server[i].id != server[j].id
  }

  lemma {:induction false} NewIsFresh(ch: Channel, server: seq<Row>, lo: nat, hi: nat)
    requires ChannelInv(ch) && SortedByBlock(server) && NewToAll(ch, server, lo, hi)
    ensures Fresh(ch.consumed, Range(server, lo, hi))
  {
    hide Range, SortedByBlock, UniqueIds, Ids;
    var a, b := RangeIsStretch(server, lo, hi);
    var R := server[a..b];
    forall i, j | 0 <= i < j < |R| ensures R[i].id != R[j].id {
      assert R[i] == server[a + i] && R[j] == server[a + j];
    }
    UniqueIdsAre(R);
    IdsAre(R);
    forall x | x in Ids(R) ensures x !in Ids(ch.consumed) {
      var i :| 0 <= i < |R| && R[i].id == x;
      assert R[i] == server[a + i];
    }
  }

  // A channel that has consumed the first k rows of a range.
  lemma {:induction false} PrefixHandsOver(ch: Channel, before: seq<Row>, server: seq<Row>, lo: nat, hi: nat, k: nat)
    requires SortedByBlock(server) && Prefix(ch, before, Range(server, lo, hi), k)
    ensures HandedOver(before, ch.consumed, server, lo, hi)
    ensures k == |Range(server, lo, hi)| ==> AllHandedOver(ch.consumed, server, lo, hi)
    ensures k < |Range(server, lo, hi)| ==> !AllHandedOver(ch.consumed, server, lo, hi)
  {
    hide Range, SortedByBlock, UniqueIds, Ids;
    var a, b := RangeIsStretch(server, lo, hi);
    var R := server[a..b];
    PrefixInv(ch, before, R, k);
    UniqueIdsAre(ch.consumed);
    FirstOfRange(server, lo, hi, a, b, k, before, ch.consumed);
    if k == |R| {
      forall i | 0 <= i < |server| && lo <= server[i].block <= hi ensures server[i] in ch.consumed {
        assert R[..k] == R;
        OfStretch(server, a, b, before, i);
      }
    } else {
      NextIsMissing(ch, before, R, k);
      assert R[k] == server[a + k];
    }
  }

  lemma OfStretch(server: seq<Row>, a: nat, b: nat, before: seq<Row>, i: nat)
    requires a <= i < b <= |server|
    ensures server[i] in before + server[a..b]
  {
    assert server[a..b][i - a] == server[i];
  }

  lemma FirstOfRange(server: seq<Row>, lo: nat, hi: nat, a: nat, b: nat, k: nat, before: seq<Row>, after: seq<Row>)
    requires SortedByBlock(server) && a <= a + k <= b <= |server| && after == before + server[a..b][..k]
    requires Cut(server, lo, hi, a, b)
    ensures before <= after && exists c: nat :: StretchFrom(after[|before|..], server, lo, c)
    ensures forall i :: |before| <= i < |after| ==> lo <= after[i].block <= hi
  {
    hide SortedByBlock;
    assert server[a..b][..k] == server[a..a + k];
    assert after[|before|..] == server[a..a + k];
    if k > 0 {
      forall i | 0 <= i < a ensures server[i].block < lo { SortedPair(server, i, a); }
      assert StretchFrom(after[|before|..], server, lo, a);
    } else {
      assert after[|before|..] == server[0..0];
      assert StretchFrom(after[|before|..], server, lo, 0);
    }
    forall i | |before| <= i < |after| ensures lo <= after[i].block <= hi {
      assert after[i] == server[a + i - |before|];
    }
  }

  lemma NextIsMissing(ch: Channel, before: seq<Row>, R: seq<Row>, k: nat)
    requires Prefix(ch, before, R, k) && k < |R|
    ensures R[k] !in ch.consumed
  {
    hide UniqueIds;
    UniqueAfter(R, k, k);
    IdsAre(before);
    IdsAre(R[..k]);
    IdsAre(R);
    assert R[k].id in Ids(R);
    forall i | 0 <= i < |ch.consumed| ensures ch.consumed[i] != R[k] {
      if i < |before| {
        assert ch.consumed[i] == before[i];
      } else {
        assert ch.consumed[i] == R[..k][i - |before|];
      }
    }
  }

  lemma {:induction false} PageBoundExactly(server: seq<Row>, lo: nat, hi: nat)
    requires SortedByBlock(server)
    ensures PagesSpanBlocks(Range(server, lo, hi)) <==> !PageBound(server, lo, hi)
  {
    hide PageBound, PagesSpanBlocks, Range, SortedByBlock;
    var a, b := RangeIsStretch(server, lo, hi);
    if !PagesSpanBlocks(server[a..b]) { BoundIfNotSpanned(server, lo, hi, a, b); }
    if PageBound(server, lo, hi) { NotSpannedIfBound(server, lo, hi, a, b); }
  }

  lemma BoundIfNotSpanned(server: seq<Row>, lo: nat, hi: nat, a: nat, b: nat)
    requires SortedByBlock(server) && a <= b <= |server| && !PagesSpanBlocks(server[a..b])
    requires Cut(server, lo, hi, a, b)
    ensures PageBound(server, lo, hi)
  {
    hide SortedByBlock, Cut;
    var R := server[a..b];
    var i, j :| 0 <= i < |R| && 0 <= j < |R| - 1 && j == i + PAGE_SIZE - 1 && R[i].block >= R[j].block;
    hide PagesSpanBlocks;
    SortedPair(server, a + i, a + j);
    CutAt(server, lo, hi, a, b, a + i);
    CutAt(server, lo, hi, a, b, a + j + 1);
    assert FillsPage(server, lo, hi, a + i);
  }

  lemma NotSpannedIfBound(server: seq<Row>, lo: nat, hi: nat, a: nat, b: nat)
    requires SortedByBlock(server) && a <= b <= |server| && PageBound(server, lo, hi)
    requires Cut(server, lo, hi, a, b)
    ensures !PagesSpanBlocks(server[a..b])
  {
    hide SortedByBlock, PagesSpanBlocks, Cut;
    var x: nat :| FillsPage(server, lo, hi, x);
    SortedPair(server, x, x + 1000);
    CutAt(server, lo, hi, a, b, x);
    CutAt(server, lo, hi, a, b, x + 1000);
    NotSpanned(server[a..b], x - a, x - a + 999);
  }

  lemma NotSpanned(R: seq<Row>, i: nat, j: nat)
    requires i < j < |R| - 1 && j == i + PAGE_SIZE - 1 && R[i].block == R[j].block
    ensures !PagesSpanBlocks(R)
  {
  }

  // A sync hands over rows of the blocks asked for, both ends included, each once and in order; and
  // if none of its queries fails, all of them, exactly when no block fills a page that a row of
  // the range follows.
  lemma {:induction false} SyncHandsOver(ch: Channel, server: seq<Row>, startBlock: nat, endBlock: nat,
          attempts: seq<Attempt>)
    requires ChannelInv(ch) && SortedByBlock(server) && NewToAll(ch, server, startBlock, endBlock)
    ensures var res := SyncTable(ch, server, startBlock, endBlock, attempts);
      && HandedOver(ch.consumed, res.ch.consumed, server, startBlock, endBlock)
      && |res.ch.consumed| == |ch.consumed| + res.nIngested
      && (res.ok ==> (AllHandedOver(res.ch.consumed, server, startBlock, endBlock) <==> !PageBound(server, startBlock, endBlock)))
  {
    hide Range, SyncTable, SortedByBlock, PagesSpanBlocks, HandedOver, AllHandedOver, PageBound, NewToAll, Prefix;
    var R := Range(server, startBlock, endBlock);
    var res := SyncTable(ch, server, startBlock, endBlock, attempts);
    NewIsFresh(ch, server, startBlock, endBlock);
    SyncTableExactlyOnce(ch, server, startBlock, endBlock, attempts);
    SyncEndsInPrefix(ch, server, startBlock, endBlock, attempts);
    PrefixHandsOver(res.ch, ch.consumed, server, startBlock, endBlock, res.nIngested);
    PageBoundExactly(server, startBlock, endBlock);
  }

  lemma {:induction false} SyncEndsInPrefix(ch: Channel, server: seq<Row>, startBlock: nat, endBlock: nat,
          attempts: seq<Attempt>)
    requires ChannelInv(ch) && SortedByBlock(server)
    requires Fresh(ch.consumed, Range(server, startBlock, endBlock))
    ensures var res := SyncTable(ch, server, startBlock, endBlock, attempts);
      Prefix(res.ch, ch.consumed, Range(server, startBlock, endBlock), res.nIngested)
  {
    hide Range, SyncTable, SortedByBlock, PagesSpanBlocks;
    var final := SyncTablePrefix(ch, ch.consumed, Range(server, startBlock, endBlock), 0, server, startBlock, endBlock, attempts);
  }

  // ---------------------------------------------------------------------------------------------
  // The combined loop: one query answers for all five tables

  datatype PerTable<T> = PerTable(swaps: T, aggs: T, bals: T, liqs: T, fees: T)

  datatype TableId = Swaps | Aggs | Bals | Liqs | Fees

  function Of<T>(p: PerTable<T>, i: TableId): T {
    match i
    case Swaps => p.swaps
    case Aggs => p.aggs
    case Bals => p.bals
    case Liqs => p.liqs
    case Fees => p.fees
  }

  // A table's channel and the cursor its next query starts from.
  datatype Table = Table(ch: Channel, cursor: nat)

  datatype Reply = Reply(ch: Channel, lastObs: nat, hasMore: bool, failed: bool)

  // Folding one table's part of a response, None being a part that cannot be decoded.
  function IngestEntries(ch: Channel, entries: Option<seq<Row>>, queryStart: nat, allowEmpty: bool): Reply {
    match entries
    case None => Reply(ch, 0, true, true)
    case Some(rows) =>
      if rows == [] then Reply(ch, 0, !allowEmpty, false)
      else
        var i := IngestRows(ch, rows, queryStart);
        Reply(i.ch, i.lastObs, i.nIngested > 0 || |rows| == PAGE_SIZE, false)
  }

  function Answer(t: Table, server: seq<Row>, decodes: bool): Option<seq<Row>> {
    if decodes then Some(Page(server, t.cursor, MAX_BLOCK)) else None
  }

  function IngestTable(t: Table, server: seq<Row>, decodes: bool, allowEmpty: bool): Reply {
    IngestEntries(t.ch, Answer(t, server, decodes), t.cursor, allowEmpty)
  }

  // The table after a round: its rows are ingested either way, but the cursor moves only in a
  // round in which every table could be decoded.
  function Advance(t: Table, r: Reply, allDecoded: bool): Table {
    Table(r.ch, if allDecoded && r.lastObs > t.cursor then r.lastObs else t.cursor)
  }

  datatype Round =
    | QueryFailed
    | Answered(servers: PerTable<seq<Row>>, decodes: PerTable<bool>)

  datatype RoundResult = RoundResult(tables: PerTable<Table>, exit: bool)

  function AllDecode(d: PerTable<bool>): bool {
    d.swaps && d.aggs && d.bals && d.liqs && d.fees
  }

  function IngestTables(s: PerTable<Table>, v: PerTable<seq<Row>>, d: PerTable<bool>, allowEmpty: bool): PerTable<Reply> {
    PerTable(
      IngestTable(s.swaps, v.swaps, d.swaps, allowEmpty),
      IngestTable(s.aggs, v.aggs, d.aggs, allowEmpty),
      IngestTable(s.bals, v.bals, d.bals, allowEmpty),
      IngestTable(s.liqs, v.liqs, d.liqs, allowEmpty),
      IngestTable(s.fees, v.fees, d.fees, allowEmpty))
  }

  function Conclude(s: PerTable<Table>, r: PerTable<Reply>, ok: bool): RoundResult {
    RoundResult(
      PerTable(Advance(s.swaps, r.swaps, ok), Advance(s.aggs, r.aggs, ok), Advance(s.bals, r.bals, ok),
        Advance(s.liqs, r.liqs, ok), Advance(s.fees, r.fees, ok)),
      ok && !r.swaps.hasMore && !r.aggs.hasMore && !r.bals.hasMore && !r.liqs.hasMore && !r.fees.hasMore)
  }

  function SyncRound(s: PerTable<Table>, round: Round, allowEmpty: bool): RoundResult {
    match round
    case QueryFailed => RoundResult(s, false)
    case Answered(v, d) => Conclude(s, IngestTables(s, v, d, allowEmpty), AllDecode(d))
  }

  datatype LoopResult = LoopResult(tables: PerTable<Table>, rounds: nat, exited: bool)

  // The startup loop over the given rounds: it stops at the first that asks for no more.
  function SyncLoop(s: PerTable<Table>, rounds: seq<Round>, allowEmpty: bool): LoopResult
    decreases |rounds|
  {
    if rounds == [] then LoopResult(s, 0, false)
    else
      var r := SyncRound(s, rounds[0], allowEmpty);
      if r.exit then LoopResult(r.tables, 1, true)
      else
        var rest := SyncLoop(r.tables, rounds[1..], allowEmpty);
        LoopResult(rest.tables, rest.rounds + 1, rest.exited)
  }

  // ---------------------------------------------------------------------------------------------
  // Safety of the combined loop

  // What a table had consumed before, and the block its sync starts from.
  datatype Goal = Goal(before: seq<Row>, start: nat)

  function Wanted(g: Goal, server: seq<Row>): seq<Row> {
    Range(server, g.start, MAX_BLOCK)
  }

  // k rows of the wanted ones are consumed, and the cursor has not overtaken them.
  ghost predicate TableInv(t: Table, g: Goal, server: seq<Row>, k: nat) {
    && SortedByBlock(server)
    && Prefix(t.ch, g.before, Wanted(g, server), k)
    && g.start <= t.cursor <= Reached(Wanted(g, server), g.start, k)
  }

  function Consumed(t: Table, g: Goal): nat {
    if |t.ch.consumed| < |g.before| then 0 else |t.ch.consumed| - |g.before|
  }

  ghost predicate Synced(t: Table, g: Goal, server: seq<Row>) {
    TableInv(t, g, server, Consumed(t, g))
  }

  // A later state of the server: rows are only added after all others, with fresh ids.
  ghost predicate Grows(g: Goal, a: seq<Row>, b: seq<Row>) {
    a <= b && SortedByBlock(b) && Fresh(g.before, Wanted(g, b))
  }

  lemma GrowthKeepsInv(t: Table, g: Goal, a: seq<Row>, b: seq<Row>)
    requires Synced(t, g, a) && Grows(g, a, b)
    ensures Synced(t, g, b)
  {
    hide Range, Ids, SortedByBlock, UniqueIds;
    var k := Consumed(t, g);
    var A, B := Wanted(g, a), Range(b[|a|..], g.start, MAX_BLOCK);
    assert Wanted(g, b) == A + B by {
      RangeConcat(a, b[|a|..], g.start, MAX_BLOCK);
      assert b == a + b[|a|..];
    }
    assert (A + B)[..k] == A[..k];
    assert 0 < k ==> (A + B)[k - 1] == A[k - 1];
  }

  // One table's part of a round. The page is R[p..q] with p <= k.
  lemma TableStep(t: Table, g: Goal, server: seq<Row>, k: nat, allowEmpty: bool) returns (p: nat,
          q: nat)
    requires TableInv(t, g, server, k)
    ensures var R := Wanted(g, server);
      p == Below(R, t.cursor) <= k && q == PageEnd(R, p) && Page(server, t.cursor, MAX_BLOCK) == R[p..q]
    ensures var r := IngestTable(t, server, true, allowEmpty);
      && Prefix(r.ch, g.before, Wanted(g, server), Max(k, q))
      && (r.lastObs <= t.cursor || r.lastObs == Reached(Wanted(g, server), g.start, Max(k, q)))
      && (q > k ==> r.lastObs == Reached(Wanted(g, server), g.start, q) >= t.cursor)
      && r.hasMore == (if p == q then !allowEmpty else q > k || q - p == PAGE_SIZE)
      && (q <= k ==> r.ch == t.ch && r.lastObs <= t.cursor)
  {
    hide Range, Page, IngestRows, SortedByBlock;
    var R := Wanted(g, server);
    p := Below(R, t.cursor);
    q := PageEnd(R, p);
    CursorPosition(g, server, k, t.cursor, q);
    PageOf(server, g.start, t.cursor, MAX_BLOCK);
    PageStep(t.ch, g.before, R, g.start, t.cursor, k, p, q);
  }

  lemma {:induction false} CursorPosition(g: Goal, server: seq<Row>, k: nat, cursor: nat, q: nat)
    requires SortedByBlock(server) && k <= |Wanted(g, server)| && q <= |Wanted(g, server)|
    requires g.start <= cursor <= Reached(Wanted(g, server), g.start, k)
    ensures SortedByBlock(Wanted(g, server)) && Below(Wanted(g, server), cursor) <= k
    ensures forall i :: 0 <= i < |Wanted(g, server)| ==> g.start <= Wanted(g, server)[i].block
    ensures k < q ==> cursor <= Wanted(g, server)[q - 1].block
  {
    var R := Wanted(g, server);
    RangeFrom(server, g.start, MAX_BLOCK);
    RangeLast(server, g.start, MAX_BLOCK);
    BelowReached(R, g.start, cursor, k);
    if 0 < k < q { SortedPair(R, k - 1, q - 1); }
  }

  // A round keeps each table in order, and a table that reports nothing more is finished.
  lemma TableRound(t: Table, g: Goal, server: seq<Row>, decodes: bool, ok: bool, allowEmpty: bool)
    requires Synced(t, g, server) && (ok ==> decodes)
    ensures var r := IngestTable(t, server, decodes, allowEmpty);
      && Synced(Advance(t, r, ok), g, server)
      && Consumed(t, g) <= Consumed(Advance(t, r, ok), g) <= |Wanted(g, server)|
      && (ok && !r.hasMore ==> Consumed(Advance(t, r, ok), g) == |Wanted(g, server)|)
  {
    if decodes {
      var k := Consumed(t, g);
      var p, q := TableStep(t, g, server, k, allowEmpty);
      var r := IngestTable(t, server, true, allowEmpty);
      assert Consumed(Advance(t, r, ok), g) == Max(k, q);
      CursorFollows(g, server, k, Max(k, q));
    }
  }

  lemma {:induction false} CursorFollows(g: Goal, server: seq<Row>, k: nat, next: nat)
    requires SortedByBlock(server) && k <= next <= |Wanted(g, server)|
    ensures g.start <= Reached(Wanted(g, server), g.start, k) <= Reached(Wanted(g, server), g.start, next)
  {
    RangeFrom(server, g.start, MAX_BLOCK);
    RangeLast(server, g.start, MAX_BLOCK);
    if 0 < k { SortedPair(Wanted(g, server), k - 1, next - 1); }
  }

  ghost predicate AllSynced(s: PerTable<Table>, g: PerTable<Goal>, v: PerTable<seq<Row>>) {
    forall i :: Synced(Of(s, i), Of(g, i), Of(v, i))
  }

  ghost predicate AllGrow(g: PerTable<Goal>, a: PerTable<seq<Row>>, b: PerTable<seq<Row>>) {
    forall i :: Grows(Of(g, i), Of(a, i), Of(b, i))
  }

  // The table has been handed every wanted row once, in server order, and nothing else.
  ghost predicate Complete(t: Table, g: Goal, server: seq<Row>) {
    t.ch.consumed == g.before + Wanted(g, server) && ChannelInv(t.ch)
  }

  ghost predicate AllComplete(s: PerTable<Table>, g: PerTable<Goal>, v: PerTable<seq<Row>>) {
    forall i :: Complete(Of(s, i), Of(g, i), Of(v, i))
  }

  lemma FinishedIsComplete(t: Table, g: Goal, server: seq<Row>)
    requires Synced(t, g, server) && Consumed(t, g) == |Wanted(g, server)|
    ensures Complete(t, g, server)
  {
    var R := Wanted(g, server);
    assert R[..|R|] == R;
    PrefixInv(t.ch, g.before, R, |R|);
  }

  // One table's part of a round.
  lemma RoundAt(s: PerTable<Table>, v: PerTable<seq<Row>>, d: PerTable<bool>, allowEmpty: bool, i: TableId)
    ensures var r, rep := SyncRound(s, Answered(v, d), allowEmpty), IngestTable(Of(s, i), Of(v, i), Of(d, i), allowEmpty);
      && Of(r.tables, i) == Advance(Of(s, i), rep, AllDecode(d))
      && (r.exit ==> AllDecode(d) && !rep.hasMore)
      && (AllDecode(d) ==> Of(d, i))
  {
    hide IngestTable, Advance;
  }

  lemma RoundKeepsSynced(s: PerTable<Table>, g: PerTable<Goal>, round: Round, allowEmpty: bool)
    requires round.Answered? && AllSynced(s, g, round.servers)
    ensures var r := SyncRound(s, round, allowEmpty);
      && AllSynced(r.tables, g, round.servers)
      && (r.exit ==> AllComplete(r.tables, g, round.servers))
  {
    hide Synced, Complete, SyncRound, IngestTable, Advance;
    var v, d := round.servers, round.decodes;
    var r := SyncRound(s, round, allowEmpty);
    forall i ensures Synced(Of(r.tables, i), Of(g, i), Of(v, i)) && (r.exit ==> Complete(Of(r.tables, i), Of(g, i), Of(v, i))) {
      RoundAt(s, v, d, allowEmpty, i);
      TableRound(Of(s, i), Of(g, i), Of(v, i), Of(d, i), AllDecode(d), allowEmpty);
      if r.exit { FinishedIsComplete(Of(r.tables, i), Of(g, i), Of(v, i)); }
    }
  }

  // Every answer comes from a later state of the server than the one before.
  ghost predicate ServerOnlyGrows(g: PerTable<Goal>, v: PerTable<seq<Row>>, rounds: seq<Round>)
    decreases |rounds|
  {
    rounds != [] ==>
      match rounds[0]
      case QueryFailed => ServerOnlyGrows(g, v, rounds[1..])
      case Answered(w, _) => AllGrow(g, v, w) && ServerOnlyGrows(g, w, rounds[1..])
  }

  // Safety: whatever queries fail, whatever parts cannot be decoded and however the server grows
  // at its end meanwhile, a startup loop that exits has handed over every row of every table as
  // of its last query, each exactly once and in server order.
  lemma {:induction false} ExitIsComplete(s: PerTable<Table>, g: PerTable<Goal>, v: PerTable<seq<Row>>,
          rounds: seq<Round>, allowEmpty: bool)
    requires AllSynced(s, g, v) && ServerOnlyGrows(g, v, rounds)
    ensures var r := SyncLoop(s, rounds, allowEmpty);
      r.exited ==>
        && 0 < r.rounds <= |rounds|
        && rounds[r.rounds - 1].Answered?
        && AllComplete(r.tables, g, rounds[r.rounds - 1].servers)
    decreases |rounds|
  {
    hide Synced, Grows, Complete, Conclude, IngestTables;
    if rounds != [] {
      match rounds[0]
      case QueryFailed =>
        ExitIsComplete(s, g, v, rounds[1..], allowEmpty);
      case Answered(w, _) =>
        forall i ensures Synced(Of(s, i), Of(g, i), Of(w, i)) {
          GrowthKeepsInv(Of(s, i), Of(g, i), Of(v, i), Of(w, i));
        }
        RoundKeepsSynced(s, g, rounds[0], allowEmpty);
        ExitIsComplete(SyncRound(s, rounds[0], allowEmpty).tables, g, w, rounds[1..], allowEmpty);
    }
  }

  // On exit, then, each of the five tables has been handed every row of its server from its first
  // block to block 999999999, each once and in the server's order, and nothing else.
  lemma {:induction false} ExitHandsOver(s: PerTable<Table>, g: PerTable<Goal>, v: PerTable<seq<Row>>,
          rounds: seq<Round>, allowEmpty: bool, i: TableId)
    requires AllSynced(s, g, v) && ServerOnlyGrows(g, v, rounds)
    requires SyncLoop(s, rounds, allowEmpty).exited
    ensures var r := SyncLoop(s, rounds, allowEmpty);
      && 0 < r.rounds <= |rounds|
      && rounds[r.rounds - 1].Answered?
      && var server, start := Of(rounds[r.rounds - 1].servers, i), Of(g, i).start;
         && HandedOver(Of(g, i).before, Of(r.tables, i).ch.consumed, server, start, 999999999)
         && AllHandedOver(Of(r.tables, i).ch.consumed, server, start, 999999999)
    decreases |rounds|
  {
    hide Synced, Grows, Conclude, IngestTables, HandedOver, AllHandedOver;
    match rounds[0]
    case QueryFailed =>
      ExitHandsOver(s, g, v, rounds[1..], allowEmpty, i);
    case Answered(w, _) =>
      forall j ensures Synced(Of(s, j), Of(g, j), Of(w, j)) {
        GrowthKeepsInv(Of(s, j), Of(g, j), Of(v, j), Of(w, j));
      }
      RoundKeepsSynced(s, g, rounds[0], allowEmpty);
      var r := SyncRound(s, rounds[0], allowEmpty);
      if r.exit {
        CompleteHandsOver(Of(r.tables, i), Of(g, i), Of(w, i));
      } else {
        ExitHandsOver(r.tables, g, w, rounds[1..], allowEmpty, i);
      }
  }

  lemma CompleteHandsOver(t: Table, g: Goal, server: seq<Row>)
    requires Synced(t, g, server) && Complete(t, g, server)
    ensures HandedOver(g.before, t.ch.consumed, server, g.start, 999999999)
    ensures AllHandedOver(t.ch.consumed, server, g.start, 999999999)
  {
    hide Range, HandedOver, AllHandedOver;
    PrefixHandsOver(t.ch, g.before, server, g.start, MAX_BLOCK, |Wanted(g, server)|);
  }

  // A channel that starts empty at its first block is synced.
  lemma {:induction false} FreshTableIsSynced(server: seq<Row>, start: nat)
    requires SortedByBlock(server) && UniqueIds(server)
    ensures Synced(Table(EMPTY_CHANNEL, start), Goal([], start), server)
  {
    RangeUnique(server, start, MAX_BLOCK);
  }

  lemma {:induction false} RangeUnique(rows: seq<Row>, lo: nat, hi: nat)
    requires UniqueIds(rows)
    ensures UniqueIds(Range(rows, lo, hi))
  {
    if rows != [] {
      var init, last := rows[..|rows| - 1], rows[|rows| - 1];
      RangeUnique(init, lo, hi);
      RangeIds(init, lo, hi);
      assert (Range(init, lo, hi) + [last])[..|Range(init, lo, hi)|] == Range(init, lo, hi);
    }
  }

  // ---------------------------------------------------------------------------------------------
  // Liveness of the combined loop on a server that stands still

  // No block at or after the cursor fills a page.
  predicate SmallBlocks(R: seq<Row>, c: nat) {
    forall i, j :: 0 <= i < |R| && 0 <= j < |R| && j == i + PAGE_SIZE - 1 && c <= R[i].block ==> R[i].block < R[j].block
  }

  // What it takes for a table to come to an end: small blocks, and rows unless empty tables are
  // allowed.
  predicate Feasible(t: Table, g: Goal, server: seq<Row>, allowEmpty: bool) {
    SmallBlocks(Wanted(g, server), t.cursor) && (Wanted(g, server) != [] || allowEmpty)
  }

  // What keeps a table asking for more for ever: a block that fills a page lies ahead, or a whole
  // page from the cursor on has been seen already; or it is empty and may not be, which further
  // rows would mend.
  ghost predicate StuckForGood(t: Table, g: Goal, server: seq<Row>) {
    Synced(t, g, server) && (!SmallBlocks(Wanted(g, server), t.cursor) || SeenPage(t, g, server))
  }

  ghost predicate Stuck(t: Table, g: Goal, server: seq<Row>, allowEmpty: bool) {
    StuckForGood(t, g, server) || (Synced(t, g, server) && Wanted(g, server) == [] && !allowEmpty)
  }

  predicate SeenPage(t: Table, g: Goal, server: seq<Row>) {
    Below(Wanted(g, server), t.cursor) + PAGE_SIZE <= Consumed(t, g)
  }

  // A table that is not stuck either reports nothing more or consumes, and is not stuck after.
  lemma MovingRound(t: Table, g: Goal, server: seq<Row>, allowEmpty: bool)
    requires Synced(t, g, server) && !Stuck(t, g, server, allowEmpty)
    ensures var r := IngestTable(t, server, true, allowEmpty);
      var u := Advance(t, r, true);
      && Synced(u, g, server) && !Stuck(u, g, server, allowEmpty)
      && Consumed(t, g) <= Consumed(u, g) <= |Wanted(g, server)|
      && (r.hasMore ==> Consumed(t, g) < Consumed(u, g))
  {
    hide Prefix, SortedByBlock, SmallBlocks, IngestTable;
    var r := IngestTable(t, server, true, allowEmpty);
    var u := Advance(t, r, true);
    var k := Consumed(t, g);
    TableRound(t, g, server, true, true, allowEmpty);
    var p, q := TableStep(t, g, server, k, allowEmpty);
    ConsumedAre(t, r, true, g, server, Max(k, q));
    PageFills(Wanted(g, server), p, q);
    assert !Stuck(u, g, server, allowEmpty) by {
      hide Synced;
      if k < q {
        RangeLast(server, g.start, MAX_BLOCK);
        SmallBlocksBehind(Wanted(g, server), t.cursor, q);
      }
    }
  }

  lemma ConsumedAre(t: Table, r: Reply, ok: bool, g: Goal, server: seq<Row>, k: nat)
    requires Prefix(r.ch, g.before, Wanted(g, server), k)
    ensures Consumed(Advance(t, r, ok), g) == k
  {
  }

  lemma PageFills(R: seq<Row>, p: nat, q: nat)
    requires p <= |R| && q == PageEnd(R, p)
    ensures p == q ==> p == |R|
    ensures q - p < PAGE_SIZE ==> q == |R|
    ensures q == p + PAGE_SIZE <==> p + PAGE_SIZE <= |R|
  {
  }

  // A cursor that follows a page of small blocks has less than a page of known rows at its block.
  lemma {:induction false} SmallBlocksBehind(R: seq<Row>, c: nat, q: nat)
    requires SortedByBlock(R) && SmallBlocks(R, c) && 0 < q <= |R| && c <= R[q - 1].block
    ensures SmallBlocks(R, R[q - 1].block)
    ensures Below(R, R[q - 1].block) + PAGE_SIZE > q
  {
    var p := Below(R, R[q - 1].block);
    if p + PAGE_SIZE <= q {
      assert R[p].block < R[p + PAGE_SIZE - 1].block;
      SortedPair(R, p + PAGE_SIZE - 1, q - 1);
    }
  }

  lemma StuckForGoodRound(t: Table, g: Goal, server: seq<Row>, decodes: bool, ok: bool, allowEmpty: bool)
    requires StuckForGood(t, g, server) && (ok ==> decodes)
    ensures var r := IngestTable(t, server, decodes, allowEmpty);
      StuckForGood(Advance(t, r, ok), g, server) && r.hasMore
  {
    hide Prefix, SortedByBlock, SmallBlocks, IngestTable;
    var r := IngestTable(t, server, decodes, allowEmpty);
    TableRound(t, g, server, decodes, ok, allowEmpty);
    if decodes {
      var R, k := Wanted(g, server), Consumed(t, g);
      var p, q := TableStep(t, g, server, k, allowEmpty);
      ConsumedAre(t, r, ok, g, server, Max(k, q));
      PageFills(R, p, q);
      if !SmallBlocks(R, t.cursor) {
        hide Synced;
        RangeLast(server, g.start, MAX_BLOCK);
        FullBlockAhead(R, t.cursor, p, q);
        if k < q { StillAhead(R, t.cursor, R[q - 1].block, p, q); }
      }
    } else {
      NothingDecoded(t, server, ok, allowEmpty);
    }
  }

  lemma NothingDecoded(t: Table, server: seq<Row>, ok: bool, allowEmpty: bool)
    ensures var r := IngestTable(t, server, false, allowEmpty); Advance(t, r, ok) == t && r.hasMore
  {
  }

  // A table that is stuck because it is empty stays so on a server that does not change.
  lemma StuckRound(t: Table, g: Goal, server: seq<Row>, decodes: bool, ok: bool, allowEmpty: bool)
    requires Stuck(t, g, server, allowEmpty) && (ok ==> decodes)
    ensures var r := IngestTable(t, server, decodes, allowEmpty);
      Stuck(Advance(t, r, ok), g, server, allowEmpty) && r.hasMore
  {
    hide IngestTable, Advance, StuckForGood, TableInv, Range;
    if StuckForGood(t, g, server) {
      StuckForGoodRound(t, g, server, decodes, ok, allowEmpty);
    } else {
      TableRound(t, g, server, decodes, ok, allowEmpty);
      if decodes {
        var p, q := TableStep(t, g, server, Consumed(t, g), allowEmpty);
      } else {
        NothingDecoded(t, server, ok, allowEmpty);
      }
    }
  }

  // A block that fills a page makes every page up to it a full one.
  lemma FullBlockAhead(R: seq<Row>, c: nat, p: nat, q: nat)
    requires !SmallBlocks(R, c) && p == Below(R, c) && q == PageEnd(R, p)
    ensures q == p + PAGE_SIZE
  {
    var i, j :| 0 <= i < |R| && 0 <= j < |R| && j == i + PAGE_SIZE - 1 && c <= R[i].block && R[i].block >= R[j].block;
    assert p <= i;
  }

  // The cursor does not get past it.
  lemma {:induction false} StillAhead(R: seq<Row>, c: nat, d: nat, p: nat, q: nat)
    requires SortedByBlock(R) && !SmallBlocks(R, c) && p == Below(R, c) && q == PageEnd(R, p) && p < q && d == R[q - 1].block
    ensures !SmallBlocks(R, d)
  {
    var i, j :| 0 <= i < |R| && 0 <= j < |R| && j == i + PAGE_SIZE - 1 && c <= R[i].block && R[i].block >= R[j].block;
    assert p <= i;
    SortedPair(R, q - 1, j);
  }

  ghost predicate AnyStuck(s: PerTable<Table>, g: PerTable<Goal>, v: PerTable<seq<Row>>, allowEmpty: bool) {
    exists i :: Stuck(Of(s, i), Of(g, i), Of(v, i), allowEmpty)
  }

  lemma StuckStays(s: PerTable<Table>, g: PerTable<Goal>, round: Round, allowEmpty: bool)
    requires round.Answered? && AnyStuck(s, g, round.servers, allowEmpty)
    ensures var r := SyncRound(s, round, allowEmpty);
      !r.exit && AnyStuck(r.tables, g, round.servers, allowEmpty)
  {
    hide Stuck, SyncRound, IngestTable, Advance;
    var v, d := round.servers, round.decodes;
    var i :| Stuck(Of(s, i), Of(g, i), Of(v, i), allowEmpty);
    RoundAt(s, v, d, allowEmpty, i);
    StuckRound(Of(s, i), Of(g, i), Of(v, i), Of(d, i), AllDecode(d), allowEmpty);
  }

  // Queries fail, or are answered by a server in state v.
  predicate StandsStill(v: PerTable<seq<Row>>, rounds: seq<Round>) {
    forall i :: 0 <= i < |rounds| && rounds[i].Answered? ==> rounds[i].servers == v
  }

  lemma {:induction false} StuckNeverExits(s: PerTable<Table>, g: PerTable<Goal>, v: PerTable<seq<Row>>,
          rounds: seq<Round>, allowEmpty: bool)
    requires AnyStuck(s, g, v, allowEmpty) && StandsStill(v, rounds)
    ensures !SyncLoop(s, rounds, allowEmpty).exited
    decreases |rounds|
  {
    if rounds != [] {
      if rounds[0].Answered? { StuckStays(s, g, rounds[0], allowEmpty); }
      StuckNeverExits(SyncRound(s, rounds[0], allowEmpty).tables, g, v, rounds[1..], allowEmpty);
    }
  }

  lemma GrowthKeepsStuck(t: Table, g: Goal, a: seq<Row>, b: seq<Row>)
    requires StuckForGood(t, g, a) && Grows(g, a, b)
    ensures StuckForGood(t, g, b)
  {
    hide Range, SortedByBlock, Synced, Below;
    var A, B := Wanted(g, a), Range(b[|a|..], g.start, MAX_BLOCK);
    GrowthKeepsInv(t, g, a, b);
    assert Wanted(g, b) == A + B by {
      RangeConcat(a, b[|a|..], g.start, MAX_BLOCK);
      assert b == a + b[|a|..];
    }
    assert Consumed(t, g) <= |A| by { PrefixOf(t, g, a); }
    if SeenPage(t, g, a) {
      BelowIs(A + B, t.cursor, Below(A, t.cursor));
    } else {
      FullBlockStays(A, B, t.cursor);
    }
  }

  lemma PrefixOf(t: Table, g: Goal, server: seq<Row>)
    requires Synced(t, g, server)
    ensures Consumed(t, g) <= |Wanted(g, server)|
  {
  }

  lemma FullBlockStays(A: seq<Row>, B: seq<Row>, c: nat)
    requires !SmallBlocks(A, c)
    ensures !SmallBlocks(A + B, c)
  {
    var i, j :| 0 <= i < |A| && 0 <= j < |A| && j == i + PAGE_SIZE - 1 && c <= A[i].block && A[i].block >= A[j].block;
    assert (A + B)[i] == A[i] && (A + B)[j] == A[j];
  }

  ghost predicate AnyStuckForGood(s: PerTable<Table>, g: PerTable<Goal>, v: PerTable<seq<Row>>) {
    exists i :: StuckForGood(Of(s, i), Of(g, i), Of(v, i))
  }

  // A full block ahead, or a full page that was seen, keeps the loop running for ever, however the
  // server grows, whatever queries fail and whatever parts cannot be decoded.
  lemma {:induction false} StuckForGoodNeverExits(s: PerTable<Table>, g: PerTable<Goal>, v: PerTable<seq<Row>>,
          rounds: seq<Round>, allowEmpty: bool)
    requires AnyStuckForGood(s, g, v) && ServerOnlyGrows(g, v, rounds)
    ensures !SyncLoop(s, rounds, allowEmpty).exited
    decreases |rounds|
  {
    hide StuckForGood, Grows, Conclude, IngestTables, IngestTable, Advance;
    if rounds != [] {
      match rounds[0]
      case QueryFailed =>
        StuckForGoodNeverExits(s, g, v, rounds[1..], allowEmpty);
      case Answered(w, d) =>
        var i :| StuckForGood(Of(s, i), Of(g, i), Of(v, i));
        GrowthKeepsStuck(Of(s, i), Of(g, i), Of(v, i), Of(w, i));
        RoundAt(s, w, d, allowEmpty, i);
        StuckForGoodRound(Of(s, i), Of(g, i), Of(w, i), Of(d, i), AllDecode(d), allowEmpty);
        StuckForGoodNeverExits(SyncRound(s, rounds[0], allowEmpty).tables, g, w, rounds[1..], allowEmpty);
    }
  }

  function LeftAt(s: PerTable<Table>, g: PerTable<Goal>, v: PerTable<seq<Row>>, i: TableId): int {
    |Wanted(Of(g, i), Of(v, i))| - Consumed(Of(s, i), Of(g, i))
  }

  // The wanted rows not consumed yet.
  function AllLeft(s: PerTable<Table>, g: PerTable<Goal>, v: PerTable<seq<Row>>): int {
    LeftAt(s, g, v, Swaps) + LeftAt(s, g, v, Aggs) + LeftAt(s, g, v, Bals) + LeftAt(s, g, v, Liqs) + LeftAt(s, g, v, Fees)
  }

  const EVERY_TABLE := PerTable(true, true, true, true, true)

  lemma MovingStep(s: PerTable<Table>, g: PerTable<Goal>, v: PerTable<seq<Row>>, allowEmpty: bool)
    requires AllSynced(s, g, v)
    ensures !AnyStuck(s, g, v, allowEmpty) ==>
      var r := SyncRound(s, Answered(v, EVERY_TABLE), allowEmpty);
      && AllSynced(r.tables, g, v) && !AnyStuck(r.tables, g, v, allowEmpty)
      && 0 <= AllLeft(r.tables, g, v)
      && (!r.exit ==> AllLeft(r.tables, g, v) < AllLeft(s, g, v))
  {
    hide Synced, Stuck, SyncRound, IngestTable, Advance, LeftAt;
    if !AnyStuck(s, g, v, allowEmpty) {
      var r := SyncRound(s, Answered(v, EVERY_TABLE), allowEmpty);
      forall i
        ensures Synced(Of(r.tables, i), Of(g, i), Of(v, i)) && !Stuck(Of(r.tables, i), Of(g, i), Of(v, i), allowEmpty)
        ensures 0 <= LeftAt(r.tables, g, v, i) <= LeftAt(s, g, v, i)
        ensures IngestTable(Of(s, i), Of(v, i), true, allowEmpty).hasMore ==> LeftAt(r.tables, g, v, i) < LeftAt(s, g, v, i)
      {
        RoundAt(s, v, EVERY_TABLE, allowEmpty, i);
        LeftAre(s, g, v, i);
        LeftAre(r.tables, g, v, i);
        MovingRound(Of(s, i), Of(g, i), Of(v, i), allowEmpty);
      }
      if !r.exit {
        var i := SomeHasMore(s, v, allowEmpty);
        assert LeftAt(r.tables, g, v, i) < LeftAt(s, g, v, i);
      }
    }
  }

  lemma LeftAre(s: PerTable<Table>, g: PerTable<Goal>, v: PerTable<seq<Row>>, i: TableId)
    ensures LeftAt(s, g, v, i) == |Wanted(Of(g, i), Of(v, i))| - Consumed(Of(s, i), Of(g, i))
    ensures Of(EVERY_TABLE, i)
  {
  }

  lemma SomeHasMore(s: PerTable<Table>, v: PerTable<seq<Row>>, allowEmpty: bool) returns (i: TableId)
    requires !SyncRound(s, Answered(v, EVERY_TABLE), allowEmpty).exit
    ensures IngestTable(Of(s, i), Of(v, i), true, allowEmpty).hasMore
  {
    hide IngestTable;
    i :| IngestTable(Of(s, i), Of(v, i), true, allowEmpty).hasMore;
  }

  // Queries fail, or are answered by a server in state v with parts that can all be decoded.
  ghost predicate Steady(v: PerTable<seq<Row>>, rounds: seq<Round>) {
    forall i :: 0 <= i < |rounds| ==> rounds[i].QueryFailed? || rounds[i] == Answered(v, EVERY_TABLE)
  }

  function Answers(rounds: seq<Round>): nat
    decreases |rounds|
  {
    if rounds == [] then 0 else Answers(rounds[1..]) + if rounds[0].Answered? then 1 else 0
  }

  lemma {:induction false} MovingExits(s: PerTable<Table>, g: PerTable<Goal>, v: PerTable<seq<Row>>,
          rounds: seq<Round>, allowEmpty: bool)
    requires AllSynced(s, g, v) && Steady(v, rounds)
    ensures !AnyStuck(s, g, v, allowEmpty) && AllLeft(s, g, v) < Answers(rounds) ==> SyncLoop(s, rounds, allowEmpty).exited
    decreases |rounds|
  {
    hide SyncRound, AnyStuck, AllSynced, AllLeft;
    AllLeftCounts(s, g, v);
    if !AnyStuck(s, g, v, allowEmpty) && AllLeft(s, g, v) < Answers(rounds) {
      if rounds[0].QueryFailed? {
        FailedRound(s, allowEmpty);
      } else {
        MovingStep(s, g, v, allowEmpty);
      }
      var r := SyncRound(s, rounds[0], allowEmpty);
      if !r.exit {
        MovingExits(r.tables, g, v, rounds[1..], allowEmpty);
      }
    }
  }

  lemma FailedRound(s: PerTable<Table>, allowEmpty: bool)
    ensures SyncRound(s, QueryFailed, allowEmpty) == RoundResult(s, false)
  {
  }

  lemma AllLeftCounts(s: PerTable<Table>, g: PerTable<Goal>, v: PerTable<seq<Row>>)
    requires AllSynced(s, g, v)
    ensures AllLeft(s, g, v) >= 0
  {
    forall i ensures LeftAt(s, g, v, i) >= 0 {
      assert Synced(Of(s, i), Of(g, i), Of(v, i));
    }
  }

  // Liveness, exactly, from any state a loop can be in: on a server that stands still the startup
  // loop never comes to an end if some table is stuck, even if parts cannot be decoded; and if
  // none is, and all parts can be decoded, it needs no more answers than there are rows left, and
  // one, however many queries fail in between.
  lemma {:induction false} ExitsExactlyUnlessStuck(s: PerTable<Table>, g: PerTable<Goal>, v: PerTable<seq<Row>>,
          allowEmpty: bool)
    requires AllSynced(s, g, v)
    ensures !AnyStuck(s, g, v, allowEmpty) ==>
      forall rounds :: Steady(v, rounds) && AllLeft(s, g, v) < Answers(rounds) ==> SyncLoop(s, rounds, allowEmpty).exited
    ensures AnyStuck(s, g, v, allowEmpty) ==>
      forall rounds :: StandsStill(v, rounds) ==> !SyncLoop(s, rounds, allowEmpty).exited
  {
    hide AllSynced, AnyStuck, SyncLoop, AllLeft;
    forall rounds | Steady(v, rounds) && !AnyStuck(s, g, v, allowEmpty) && AllLeft(s, g, v) < Answers(rounds)
      ensures SyncLoop(s, rounds, allowEmpty).exited
    {
      MovingExits(s, g, v, rounds, allowEmpty);
    }
    forall rounds | StandsStill(v, rounds) && AnyStuck(s, g, v, allowEmpty)
      ensures !SyncLoop(s, rounds, allowEmpty).exited
    {
      StuckNeverExits(s, g, v, rounds, allowEmpty);
    }
  }

  // The cursor stands at the last consumed row, as it does until a part cannot be decoded.
  ghost predicate Tight(t: Table, g: Goal, server: seq<Row>) {
    Synced(t, g, server) && t.cursor == Reached(Wanted(g, server), g.start, Consumed(t, g))
  }

  // For such a table it takes small blocks, and rows unless empty tables are allowed.
  lemma TightIsStuckExactly(t: Table, g: Goal, server: seq<Row>, allowEmpty: bool)
    requires Tight(t, g, server)
    ensures Synced(t, g, server) && (Stuck(t, g, server, allowEmpty) <==> !Feasible(t, g, server, allowEmpty))
  {
    hide Range, SmallBlocks, SortedByBlock;
    var R, k := Wanted(g, server), Consumed(t, g);
    RangeLast(server, g.start, MAX_BLOCK);
    if 0 < k && SmallBlocks(R, t.cursor) {
      SmallBlocksBehind(R, t.cursor, k);
    }
  }

  ghost predicate AllTight(s: PerTable<Table>, g: PerTable<Goal>, v: PerTable<seq<Row>>) {
    forall i :: Tight(Of(s, i), Of(g, i), Of(v, i))
  }

  ghost predicate AllFeasible(s: PerTable<Table>, g: PerTable<Goal>, v: PerTable<seq<Row>>, allowEmpty: bool) {
    forall i :: Feasible(Of(s, i), Of(g, i), Of(v, i), allowEmpty)
  }

  // Before any decode error, then, the loop comes to an end if and only if every table has rows
  // (or need not have any) and no block ahead of its cursor fills a page.
  lemma {:induction false} ExitsExactlyWhenFeasible(s: PerTable<Table>, g: PerTable<Goal>, v: PerTable<seq<Row>>,
          allowEmpty: bool)
    requires AllTight(s, g, v)
    ensures AllFeasible(s, g, v, allowEmpty) ==>
      forall rounds :: Steady(v, rounds) && AllLeft(s, g, v) < Answers(rounds) ==> SyncLoop(s, rounds, allowEmpty).exited
    ensures !AllFeasible(s, g, v, allowEmpty) ==>
      forall rounds :: StandsStill(v, rounds) ==> !SyncLoop(s, rounds, allowEmpty).exited
  {
    hide Stuck, Feasible, SyncLoop, AllLeft, Synced, Tight;
    forall i
      ensures Synced(Of(s, i), Of(g, i), Of(v, i))
      ensures Stuck(Of(s, i), Of(g, i), Of(v, i), allowEmpty) <==> !Feasible(Of(s, i), Of(g, i), Of(v, i), allowEmpty)
    {
      assert Tight(Of(s, i), Of(g, i), Of(v, i));
      TightIsStuckExactly(Of(s, i), Of(g, i), Of(v, i), allowEmpty);
    }
    ExitsExactlyUnlessStuck(s, g, v, allowEmpty);
  }

  // ---------------------------------------------------------------------------------------------
  // What a decode error does

  // What a round with a decode error in it makes stuck: a table whose own part can be decoded, if
  // a page or more of rows lies at or above its cursor; and what was stuck before.
  predicate Stalls(t: Table, g: Goal, server: seq<Row>, decodes: bool, allowEmpty: bool) {
    var R := Wanted(g, server);
    || (R == [] && !allowEmpty) || !SmallBlocks(R, t.cursor)
    || Below(R, t.cursor) + PAGE_SIZE <= if decodes then |R| else Consumed(t, g)
  }

  // The cursor of an error round does not move, so the table ingests the same page for ever if it
  // is a full one.
  lemma ErrorRoundSticksExactly(t: Table, g: Goal, server: seq<Row>, decodes: bool, allowEmpty: bool)
    requires Synced(t, g, server)
    ensures var u := Advance(t, IngestTable(t, server, decodes, allowEmpty), false);
      && Synced(u, g, server)
      && (Stuck(u, g, server, allowEmpty) <==> Stalls(t, g, server, decodes, allowEmpty))
  {
    TableRound(t, g, server, decodes, false, allowEmpty);
    if decodes {
      hide Prefix, SortedByBlock, SmallBlocks;
      var k := Consumed(t, g);
      var p, q := TableStep(t, g, server, k, allowEmpty);
      PageFills(Wanted(g, server), p, q);
      ConsumedAre(t, IngestTable(t, server, true, allowEmpty), false, g, server, Max(k, q));
    }
  }

  ghost predicate AnyStalls(s: PerTable<Table>, g: PerTable<Goal>, v: PerTable<seq<Row>>, d: PerTable<bool>, allowEmpty: bool) {
    exists i :: Stalls(Of(s, i), Of(g, i), Of(v, i), Of(d, i), allowEmpty)
  }

  lemma ErrorRound(s: PerTable<Table>, g: PerTable<Goal>, v: PerTable<seq<Row>>,
          d: PerTable<bool>, allowEmpty: bool)
    requires AllSynced(s, g, v) && !AllDecode(d)
    ensures var r := SyncRound(s, Answered(v, d), allowEmpty);
      && !r.exit && AllSynced(r.tables, g, v)
      && (AnyStuck(r.tables, g, v, allowEmpty) <==> AnyStalls(s, g, v, d, allowEmpty))
  {
    hide Synced, Stuck, Stalls, SyncRound, IngestTable, Advance;
    var r := SyncRound(s, Answered(v, d), allowEmpty);
    forall i
      ensures Synced(Of(r.tables, i), Of(g, i), Of(v, i)) && !r.exit
      ensures Stuck(Of(r.tables, i), Of(g, i), Of(v, i), allowEmpty) <==> Stalls(Of(s, i), Of(g, i), Of(v, i), Of(d, i), allowEmpty)
    {
      RoundAt(s, v, d, allowEmpty, i);
      ErrorRoundSticksExactly(Of(s, i), Of(g, i), Of(v, i), Of(d, i), allowEmpty);
    }
    RoundAt(s, v, d, allowEmpty, Swaps);
  }

  // Exactly when a decode error keeps the startup loop from ever ending, whichever tables it is in
  // and whatever state it meets the loop in: when it makes some table stuck. Otherwise the loop
  // still ends, within as many answers as there are rows left, and one.
  lemma {:induction false} DecodeErrorStallsExactly(s: PerTable<Table>, g: PerTable<Goal>, v: PerTable<seq<Row>>,
          d: PerTable<bool>, later: seq<Round>, allowEmpty: bool)
    requires AllSynced(s, g, v) && !AllDecode(d)
    ensures AnyStalls(s, g, v, d, allowEmpty) && StandsStill(v, later) ==>
      !SyncLoop(s, [Answered(v, d)] + later, allowEmpty).exited
    ensures !AnyStalls(s, g, v, d, allowEmpty) && Steady(v, later) ==>
      AllLeft(SyncRound(s, Answered(v, d), allowEmpty).tables, g, v) < Answers(later) ==>
        SyncLoop(s, [Answered(v, d)] + later, allowEmpty).exited
  {
    hide AllSynced, AnyStuck, AnyStalls, SyncRound, AllLeft;
    var rounds := [Answered(v, d)] + later;
    assert rounds[1..] == later;
    ErrorRound(s, g, v, d, allowEmpty);
    ExitsExactlyUnlessStuck(SyncRound(s, rounds[0], allowEmpty).tables, g, v, allowEmpty);
  }

  // ---------------------------------------------------------------------------------------------
  // The objects

  class SyncChannel {
    var rowsIngested: nat
    var idsObserved: set<string>
    var consumed: seq<Row>        // the calls of the consumer, in order

    function View(): Channel
      reads this
    {
      Channel(idsObserved, consumed, rowsIngested)
    }

    constructor ()
      ensures View() == EMPTY_CHANNEL && ChannelInv(View())
    {
      rowsIngested, idsObserved, consumed := 0, {}, [];
    }

    // Hands a row on unless its id is known; the block is -1 for a known one.
    method IngestEntry(r: Row) returns (isFresh: bool, block: int)
      modifies this
      ensures isFresh <==> r.id !in old(idsObserved)
      ensures View() == if isFresh then Consume(old(View()), r) else old(View())
      ensures consumed == old(consumed) + (if isFresh then [r] else []) && idsObserved == old(idsObserved) + {r.id}
      ensures rowsIngested == old(rowsIngested) + if isFresh then 1 else 0
      ensures block == if isFresh then r.block else -1
    {
      if r.id !in idsObserved {
        idsObserved := idsObserved + {r.id};
        consumed := consumed + [r];
        rowsIngested := rowsIngested + 1;
        return true, r.block;
      } else {
        return false, -1;
      }
    }

    // The loop both entry points run over the rows of one response.
    method IngestPage(rows: seq<Row>, start: nat) returns (nIngested: nat, lastObs: nat)
      modifies this
      ensures Ingest(View(), nIngested, lastObs) == IngestRows(old(View()), rows, start)
    {
      nIngested, lastObs := 0, start;
      for i := 0 to |rows|
        invariant Ingest(View(), nIngested, lastObs) == IngestRows(old(View()), rows[..i], start)
      {
        assert rows[..i + 1][..i] == rows[..i];
        var isFresh, block := IngestEntry(rows[i]);
        if isFresh {
          nIngested := nIngested + 1;
        }
        if block > lastObs {
          lastObs := block;
        }
      }
      assert rows[..|rows|] == rows;
    }

    method IngestEntriesOf(entries: Option<seq<Row>>, queryStart: nat, allowEmpty: bool)
      returns (lastObs: nat, hasMore: bool, failed: bool)
      modifies this
      ensures Reply(View(), lastObs, hasMore, failed) == IngestEntries(old(View()), entries, queryStart, allowEmpty)
      ensures failed <==> entries.None?
      ensures hasMore <==>
        match entries
        case None => true
        case Some(rows) => if rows == [] then !allowEmpty else |consumed| > old(|consumed|) || |rows| == 1000
    {
      if entries.Some? { IngestedCount(View(), entries.value, queryStart); }
      match entries
      case None =>
        return 0, true, true;
      case Some(rows) =>
        if |rows| == 0 {
          return 0, !allowEmpty, false;
        }
        var nIngested;
        nIngested, lastObs := IngestPage(rows, queryStart);
        hasMore, failed := nIngested > 0 || |rows| == PAGE_SIZE, false;
    }

    // Pages from startBlock on until a page brings nothing new, or a query fails. Undecodable
    // responses are asked for again.
    method SyncTableToSubgraph(server: seq<Row>, startBlock: nat, endBlock: nat,
            attempts: seq<Attempt>) returns (nIngested: nat, ok: bool)
      requires ChannelInv(View())
      modifies this
      ensures ChannelInv(View())
      ensures TableSync(View(), nIngested, ok) == SyncTable(old(View()), server, startBlock, endBlock, attempts)
      ensures old(Fresh(consumed, Range(server, startBlock, endBlock))) && SortedByBlock(server) ==>
        var R := Range(server, startBlock, endBlock);
        && nIngested <= |R|
        && consumed == old(consumed) + R[..nIngested]
        && (ok ==> (nIngested == |R| <==> PagesSpanBlocks(R)))
      ensures old(NewToAll(View(), server, startBlock, endBlock)) && SortedByBlock(server) ==>
        && HandedOver(old(consumed), consumed, server, startBlock, endBlock)
        && |consumed| == old(|consumed|) + nIngested
        && (ok ==> (AllHandedOver(consumed, server, startBlock, endBlock) <==> !PageBound(server, startBlock, endBlock)))
    {
      hide Page, Range, PagesSpanBlocks, Fresh, SortedByBlock, Ids, IngestRows, HandedOver, AllHandedOver, PageBound, NewToAll;
      ghost var first := View();
      if SortedByBlock(server) && Fresh(first.consumed, Range(server, startBlock, endBlock)) {
        SyncTableExactlyOnce(first, server, startBlock, endBlock, attempts);
      }
      if SortedByBlock(server) && NewToAll(first, server, startBlock, endBlock) {
        SyncHandsOver(first, server, startBlock, endBlock, attempts);
      }
      var lastObs, hasMore, coming := startBlock, true, attempts;
      nIngested, ok := 0, true;
      while hasMore
        invariant ChannelInv(View()) && ok
        invariant hasMore ==>
          var rest := SyncTable(View(), server, lastObs, endBlock, coming);
          SyncTable(first, server, startBlock, endBlock, attempts) == TableSync(rest.ch, nIngested + rest.nIngested, rest.ok)
        invariant !hasMore ==> SyncTable(first, server, startBlock, endBlock, attempts) == TableSync(View(), nIngested, true)
        decreases hasMore, |coming|, Ids(server) - idsObserved
      {
        hasMore := false;
        var attempt := if coming == [] then Answers else coming[0];
        if attempt.Fails? {
          return nIngested, false;
        }
        coming := Rest(coming);
        if attempt.Undecodable? {
          hasMore := true;
          continue;
        }
        PageProgress(View(), server, lastObs, endBlock);
        var n, obs := IngestPage(Page(server, lastObs, endBlock), lastObs);
        nIngested := nIngested + n;
        lastObs := obs;
        hasMore := n > 0;
      }
    }
  }

  class CombinedSubgraphSyncer {
    const swaps: SyncChannel
    const aggs: SyncChannel
    const bals: SyncChannel
    const liqs: SyncChannel
    const fees: SyncChannel
    var lastBlocks: PerTable<nat>

    ghost predicate Valid() {
      && swaps != aggs && swaps != bals && swaps != liqs && swaps != fees
      && aggs != bals && aggs != liqs && aggs != fees
      && bals != liqs && bals != fees
      && liqs != fees
    }

    function View(): PerTable<Table>
      reads this, swaps, aggs, bals, liqs, fees
    {
      PerTable(Table(swaps.View(), lastBlocks.swaps), Table(aggs.View(), lastBlocks.aggs),
        Table(bals.View(), lastBlocks.bals), Table(liqs.View(), lastBlocks.liqs), Table(fees.View(), lastBlocks.fees))
    }

    constructor (startBlocks: PerTable<nat>)
      ensures Valid() && lastBlocks == startBlocks
      ensures fresh(swaps) && fresh(aggs) && fresh(bals) && fresh(liqs) && fresh(fees)
      ensures View() == PerTable(Table(EMPTY_CHANNEL, startBlocks.swaps), Table(EMPTY_CHANNEL, startBlocks.aggs),
        Table(EMPTY_CHANNEL, startBlocks.bals), Table(EMPTY_CHANNEL, startBlocks.liqs), Table(EMPTY_CHANNEL, startBlocks.fees))
    {
      swaps := new SyncChannel();
      aggs := new SyncChannel();
      bals := new SyncChannel();
      liqs := new SyncChannel();
      fees := new SyncChannel();
      lastBlocks := startBlocks;
    }

    // One response: every table is ingested, the cursors move only if all could be decoded.
    method Ingest(servers: PerTable<seq<Row>>, decodes: PerTable<bool>, allowEmpty: bool) returns (done: bool)
      requires Valid()
      modifies this, swaps, aggs, bals, liqs, fees
      ensures RoundResult(View(), done) == SyncRound(old(View()), Answered(servers, decodes), allowEmpty)
    {
      var r := IngestAll(servers, decodes, allowEmpty);
      done := MoveCursors(r, old(View()));
    }

    method MoveCursors(r: PerTable<Reply>, ghost s: PerTable<Table>) returns (done: bool)
      requires Valid()
      requires s.swaps.cursor == lastBlocks.swaps && s.aggs.cursor == lastBlocks.aggs && s.bals.cursor == lastBlocks.bals
      requires s.liqs.cursor == lastBlocks.liqs && s.fees.cursor == lastBlocks.fees
      requires r.swaps.ch == swaps.View() && r.aggs.ch == aggs.View() && r.bals.ch == bals.View()
      requires r.liqs.ch == liqs.View() && r.fees.ch == fees.View()
      modifies this
      ensures RoundResult(View(), done) == Conclude(s, r,
        !r.swaps.failed && !r.aggs.failed && !r.bals.failed && !r.liqs.failed && !r.fees.failed)
    {
      if r.swaps.failed || r.aggs.failed || r.bals.failed || r.liqs.failed || r.fees.failed {
        return false;
      }
      lastBlocks := PerTable(
        if r.swaps.lastObs > lastBlocks.swaps then r.swaps.lastObs else lastBlocks.swaps,
        if r.aggs.lastObs > lastBlocks.aggs then r.aggs.lastObs else lastBlocks.aggs,
        if r.bals.lastObs > lastBlocks.bals then r.bals.lastObs else lastBlocks.bals,
        if r.liqs.lastObs > lastBlocks.liqs then r.liqs.lastObs else lastBlocks.liqs,
        if r.fees.lastObs > lastBlocks.fees then r.fees.lastObs else lastBlocks.fees);
      done := !r.swaps.hasMore && !r.aggs.hasMore && !r.bals.hasMore && !r.liqs.hasMore && !r.fees.hasMore;
    }

    // The five tables of one response, each from its own cursor.
    method IngestAll(servers: PerTable<seq<Row>>, decodes: PerTable<bool>, allowEmpty: bool) returns (r: PerTable<Reply>)
      requires Valid()
      modifies swaps, aggs, bals, liqs, fees
      ensures r == IngestTables(old(View()), servers, decodes, allowEmpty)
      ensures r.swaps.ch == swaps.View() && r.aggs.ch == aggs.View() && r.bals.ch == bals.View()
      ensures r.liqs.ch == liqs.View() && r.fees.ch == fees.View()
      ensures AllDecode(decodes) <==>
        !r.swaps.failed && !r.aggs.failed && !r.bals.failed && !r.liqs.failed && !r.fees.failed
    {
      var swapRep := IngestOf(swaps, lastBlocks.swaps, servers.swaps, decodes.swaps, allowEmpty);
      var aggRep := IngestOf(aggs, lastBlocks.aggs, servers.aggs, decodes.aggs, allowEmpty);
      var balRep := IngestOf(bals, lastBlocks.bals, servers.bals, decodes.bals, allowEmpty);
      var liqRep := IngestOf(liqs, lastBlocks.liqs, servers.liqs, decodes.liqs, allowEmpty);
      var feeRep := IngestOf(fees, lastBlocks.fees, servers.fees, decodes.fees, allowEmpty);
      r := PerTable(swapRep, aggRep, balRep, liqRep, feeRep);
    }

    static method IngestOf(channel: SyncChannel, cursor: nat, server: seq<Row>, decodes: bool,
            allowEmpty: bool) returns (r: Reply)
      modifies channel
      ensures r == IngestTable(Table(old(channel.View()), cursor), server, decodes, allowEmpty)
      ensures r.ch == channel.View() && r.failed == !decodes
    {
      var lastObs, hasMore, failed := channel.IngestEntriesOf(Answer(Table(channel.View(), cursor), server, decodes), cursor, allowEmpty);
      r := Reply(channel.View(), lastObs, hasMore, failed);
    }

    // The startup loop over the given rounds.
    method SyncLoopStartup(rounds: seq<Round>, allowEmpty: bool) returns (used: nat, exited: bool)
      requires Valid()
      modifies this, swaps, aggs, bals, liqs, fees
      ensures LoopResult(View(), used, exited) == SyncLoop(old(View()), rounds, allowEmpty)
    {
      used, exited := 0, false;
      while used < |rounds| && !exited
        invariant used <= |rounds|
        invariant !exited ==>
          var rest := SyncLoop(View(), rounds[used..], allowEmpty);
          SyncLoop(old(View()), rounds, allowEmpty) == LoopResult(rest.tables, used + rest.rounds, rest.exited)
        invariant exited ==> SyncLoop(old(View()), rounds, allowEmpty) == LoopResult(View(), used, true)
      {
        var round := rounds[used];
        assert rounds[used..][1..] == rounds[used + 1..];
        used := used + 1;
        if round.Answered? {
          exited := Ingest(round.servers, round.decodes, allowEmpty);
        }
      }
    }
  }
}
