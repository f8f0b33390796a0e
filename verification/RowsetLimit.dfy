/** What SQL_ATTR_MAX_ROWS promises, and what cutting each page on arrival delivers. */
module RowsetLimit {
  import opened SqlTypes
  import opened RowsetFetch
  import opened RowsetDelivery
  import RowLimit

  predicate Barred(maxRows: nat) {
    LimitOf(maxRows).Barred?
  }

  function PageLimit(maxRows: nat): nat {
    if Barred(maxRows) then 0 else LimitOf(maxRows).most
  }

  function AllRows(pages: seq<Response>): seq<Row> {
    Deliverable(pages, AtMost(0))
  }

  function Take(rows: seq<Row>, n: nat): seq<Row> {
    if |rows| <= n then rows else rows[..n]
  }

  predicate Distinct(rows: seq<Row>) {
    forall i, j :: 0 <= i < j < |rows| ==> rows[i] != rows[j]
  }

  /** Pages cut to `limit` give the first `room` rows: none is too long for the room, or cut before it is used up. */
  predicate Fits(server: seq<Response>, room: nat, limit: nat)
    requires NoFailures(server)
    decreases |server|
  {
    server == [] ||
    var rows := server[0].rows;
    if |rows| <= limit then |rows| <= room && Fits(server[1..], room - |rows|, limit)
    else limit == room && AllRows(server[1..]) == []
  }

  /** The condition under which the limit is kept, on the page sizes alone. */
  predicate LimitKept(firstPage: seq<Row>, server: seq<Response>, maxRows: nat)
    requires NoFailures(server)
  {
    if maxRows == 0 then true
    else if |firstPage| >= maxRows then Barred(maxRows) || AllRows(server) == []
    else if Barred(maxRows) then AllRows(server) == []
    else Fits(server, maxRows - |firstPage|, PageLimit(maxRows))
  }

  lemma {:induction false} FirstDelivered(server: seq<Response>, most: nat)
    requires NoFailures(server) && most > 0
    ensures Deliverable(server, AtMost(most)) == [] <==> AllRows(server) == []
    ensures AllRows(server) != [] ==> Deliverable(server, AtMost(most))[0] == AllRows(server)[0]
    decreases |server|
  {
    if server == [] {
    } else {
      FirstDelivered(server[1..], most);
    }
  }

  lemma SplitAt(a: seq<Row>, b: seq<Row>, n: nat)
    ensures |a| <= n ==> Take(a + b, n) == a + Take(b, n - |a|)
    ensures |a| >= n ==> Take(a + b, n) == a[..n]
  {
  }

  /** The page at the front, if it is not cut. */
  lemma WholePageIff(page: seq<Row>, d: seq<Row>, all: seq<Row>, room: nat)
    ensures page + d == Take(page + all, room) <==> |page| <= room && d == Take(all, room - |page|)
  {
    SplitAt(page, all, room);
    if |page| <= room {
      SameBehind(page, d, Take(all, room - |page|));
    } else {
      assert |page + d| > room;
    }
  }

  /** The page at the front, if it is cut: what follows it is not what was cut off. */
  lemma CutPageIff(page: seq<Row>, d: seq<Row>, all: seq<Row>, room: nat, limit: nat)
    requires limit < |page| && (d == [] <==> all == []) && (d != [] ==> d[0] == all[0])
    requires room <= limit || Distinct(page + all)
    ensures page[..limit] + d == Take(page + all, room) <==> limit == room && d == []
  {
    SplitAt(page, all, room);
    if limit == room {
      NothingAdded(page[..limit]);
      SameBehind(page[..limit], d, []);
    } else if room < limit {
      assert |page[..limit] + d| > room;
    } else if d != [] {
      assert (page + all)[limit] == page[limit] && (page + all)[|page|] == all[0];
      assert (page[..limit] + d)[limit] == d[0];
      assert Take(page + all, room)[limit] == page[limit];
    }
  }

  lemma DistinctTail(a: seq<Row>, b: seq<Row>)
    requires Distinct(a + b)
    ensures Distinct(b)
  {
    assert forall i :: 0 <= i < |b| ==> (a + b)[|a| + i] == b[i];
  }

  lemma {:induction false} FitsIff(server: seq<Response>, room: nat, limit: nat)
    requires NoFailures(server) && limit > 0
    ensures Fits(server, room, limit) ==> Deliverable(server, AtMost(limit)) == Take(AllRows(server), room)
    ensures room <= limit || Distinct(AllRows(server)) ==>
              (Deliverable(server, AtMost(limit)) == Take(AllRows(server), room) <==> Fits(server, room, limit))
    decreases |server|
  {
    if server == [] {
    } else {
      var page, rest := server[0].rows, server[1..];
      var d, all := Deliverable(rest, AtMost(limit)), AllRows(rest);
      FirstDelivered(rest, limit);
      if |page| <= limit {
        if |page| <= room {
          FitsIff(rest, room - |page|, limit);
        }
        WholePageFits(page, d, all, room, limit, |page| <= room && Fits(rest, room - |page|, limit));
      } else {
        CutPageFits(page, d, all, room, limit);
      }
    }
  }

  lemma WholePageFits(page: seq<Row>, d: seq<Row>, all: seq<Row>, room: nat, limit: nat, fits: bool)
    requires fits ==> |page| <= room && d == Take(all, room - |page|)
    requires |page| <= room && (room - |page| <= limit || Distinct(all)) ==> (d == Take(all, room - |page|) <==> fits)
    ensures fits ==> page + d == Take(page + all, room)
    ensures room <= limit || Distinct(page + all) ==> (page + d == Take(page + all, room) <==> fits)
  {
    WholePageIff(page, d, all, room);
    if Distinct(page + all) {
      DistinctTail(page, all);
    }
  }

  lemma CutPageFits(page: seq<Row>, d: seq<Row>, all: seq<Row>, room: nat, limit: nat)
    requires limit < |page| && (d == [] <==> all == []) && (d != [] ==> d[0] == all[0])
    ensures limit == room && all == [] ==> page[..limit] + d == Take(page + all, room)
    ensures page[..limit] + d == Take(page + all, room) && (room <= limit || Distinct(page + all)) ==>
              limit == room && all == []
  {
    if room <= limit || Distinct(page + all) {
      CutPageIff(page, d, all, room, limit);
    }
  }

  /** The result as it arrives: the first page cut by the execution, the others on demand. */
  function Opened(firstPage: seq<Row>, server: seq<Response>, maxRows: nat): State {
    State(Trim(firstPage, maxRows), -1, server, true)
  }

  lemma OpenedPending(firstPage: seq<Row>, server: seq<Response>, maxRows: nat)
    ensures Pending(Opened(firstPage, server, maxRows), LimitOf(maxRows))
         == Trim(firstPage, maxRows) + Deliverable(server, LimitOf(maxRows))
  {
  }

  lemma PromisedRows(firstPage: seq<Row>, server: seq<Response>, maxRows: nat)
    requires maxRows > 0
    ensures
      var promised := RowLimit.FirstRows(firstPage + AllRows(server), maxRows);
      promised == if |firstPage| >= maxRows then Trim(firstPage, maxRows)
                  else firstPage + Take(AllRows(server), maxRows - |firstPage|)
  {
    SplitAt(firstPage, AllRows(server), maxRows);
    NothingAdded(firstPage);
  }

  /**
   The count of rows fetched so far is never advanced, so every page is cut by itself, and by the limit as an int. The
   application gets the first `maxRows` rows iff the page sizes happen to fit. Above 2^32 a page can be cut short and
   the gap filled by equal rows of a later page, which only distinct rows tell apart.
   */
  lemma MaxRowsIff(firstPage: seq<Row>, server: seq<Response>, maxRows: nat)
    requires NoFailures(server)
    ensures
      var all := firstPage + AllRows(server);
      var kept := Pending(Opened(firstPage, server, maxRows), LimitOf(maxRows)) == RowLimit.FirstRows(all, maxRows);
      && (LimitKept(firstPage, server, maxRows) ==> kept)
      && (maxRows <= 0x1_0000_0000 || Distinct(all) ==> (kept <==> LimitKept(firstPage, server, maxRows)))
  {
    var later := Deliverable(server, LimitOf(maxRows));
    OpenedPending(firstPage, server, maxRows);
    if maxRows > 0 {
      PromisedRows(firstPage, server, maxRows);
      var front := Trim(firstPage, maxRows);
      NothingAdded(front);
      if |firstPage| >= maxRows {
        SameBehind(front, later, []);
      } else {
        SameBehind(front, later, Take(AllRows(server), maxRows - |firstPage|));
      }
      if !Barred(maxRows) {
        FirstDelivered(server, PageLimit(maxRows));
        LimitsAgree(firstPage, server, maxRows);
      }
    }
  }

  lemma SmallIsKept(maxRows: nat)
    requires maxRows > 0 && !Barred(maxRows)
    ensures LimitOf(maxRows) == AtMost(PageLimit(maxRows)) && PageLimit(maxRows) > 0
    ensures maxRows <= 0x1_0000_0000 ==> PageLimit(maxRows) == maxRows
  {
  }

  lemma LimitsAgree(firstPage: seq<Row>, server: seq<Response>, maxRows: nat)
    requires NoFailures(server) && maxRows > 0 && !Barred(maxRows)
    ensures maxRows <= 0x1_0000_0000 ==> PageLimit(maxRows) == maxRows
    ensures |firstPage| < maxRows ==>
              var room := maxRows - |firstPage|;
              var fits := Fits(server, room, PageLimit(maxRows));
              && (fits ==> Deliverable(server, LimitOf(maxRows)) == Take(AllRows(server), room))
              && (maxRows <= 0x1_0000_0000 || Distinct(firstPage + AllRows(server)) ==>
                    (Deliverable(server, LimitOf(maxRows)) == Take(AllRows(server), room) <==> fits))
  {
    SmallIsKept(maxRows);
    if |firstPage| < maxRows {
      FitsIff(server, maxRows - |firstPage|, PageLimit(maxRows));
      if Distinct(firstPage + AllRows(server)) {
        DistinctTail(firstPage, AllRows(server));
      }
    }
  }

  // Limits that an int holds

  function NonEmptyPages(pages: seq<Response>): nat
    requires NoFailures(pages)
  {
    if pages == [] then 0 else (if pages[0].rows != [] then 1 else 0) + NonEmptyPages(pages[1..])
  }

  lemma {:induction false} EmptyPages(pages: seq<Response>)
    requires NoFailures(pages)
    ensures NonEmptyPages(pages) == 0 <==> AllRows(pages) == []
    decreases |pages|
  {
    if pages == [] {
    } else {
      EmptyPages(pages[1..]);
    }
  }

  lemma {:induction false} FitsSmallIff(server: seq<Response>, room: nat, limit: nat)
    requires NoFailures(server) && room <= limit
    ensures Fits(server, room, limit) <==>
            |AllRows(server)| <= room || (room == limit && NonEmptyPages(server) == 1)
    decreases |server|
  {
    if server == [] {
    } else {
      var rows := server[0].rows;
      EmptyPages(server[1..]);
      if |rows| <= room {
        FitsSmallIff(server[1..], room - |rows|, limit);
      }
    }
  }

  /** Below 2^31: iff there is no limit, or the result does not exceed it, or one page held it all. */
  lemma SmallMaxRowsIff(firstPage: seq<Row>, server: seq<Response>, maxRows: nat)
    requires NoFailures(server) && maxRows < 0x8000_0000
    ensures
      var all := firstPage + AllRows(server);
      Pending(Opened(firstPage, server, maxRows), LimitOf(maxRows)) == RowLimit.FirstRows(all, maxRows)
      <==> maxRows == 0 || |all| <= maxRows || NonEmptyPages([Page(firstPage)] + server) <= 1
  {
    MaxRowsIff(firstPage, server, maxRows);
    if maxRows > 0 {
      SmallLimitKeptIff(firstPage, server, maxRows);
    }
  }

  lemma SmallLimitKeptIff(firstPage: seq<Row>, server: seq<Response>, maxRows: nat)
    requires NoFailures(server) && 0 < maxRows < 0x8000_0000
    ensures LimitKept(firstPage, server, maxRows)
      <==> |firstPage| + |AllRows(server)| <= maxRows || NonEmptyPages([Page(firstPage)] + server) <= 1
  {
    assert ([Page(firstPage)] + server)[1..] == server;
    assert Wrap32(maxRows) == maxRows;
    EmptyPages(server);
    if |firstPage| < maxRows {
      FitsSmallIff(server, maxRows - |firstPage|, maxRows);
    }
  }

  // Inputs at which the limit is not kept

  /** Two pages of one row under a limit of one row: the application gets both. */
  lemma MaxRowsExceeded()
    ensures FetchAll(Opened([1], [Page([2])], 1), [1, 1, 1, 1], r => true, LimitOf(1)).1 == [1, 2]
  {
    var start := Opened([1], [Page([2])], 1);
    assert Deliverable([Page([2])], LimitOf(1)) == [2] + Deliverable([], LimitOf(1));
    assert Pending(start, LimitOf(1)) == [1, 2];
    DeliversEverything(start, [1, 1, 1, 1], r => true, LimitOf(1));
  }

  /** Limits that are not positive as an int let nothing but the first page arrive. */
  lemma BarredDelivers(firstPage: seq<Row>, server: seq<Response>, maxRows: nat, sizes: seq<nat>)
    requires Barred(maxRows) && NoFailures(server) && forall i :: 0 <= i < |sizes| ==> sizes[i] > 0
    requires |sizes| >= |firstPage| + 2 * |server|
    ensures FetchAll(Opened(firstPage, server, maxRows), sizes, r => true, LimitOf(maxRows)).1 == Trim(firstPage, maxRows)
  {
    OpenedPending(firstPage, server, maxRows);
    NothingAdded(Trim(firstPage, maxRows));
    DeliversEverything(Opened(firstPage, server, maxRows), sizes, r => true, LimitOf(maxRows));
  }

  /** The same pages under a limit of 2^31, which is negative as an int: the second page is never fetched. */
  lemma MaxRowsBarred(maxRows: nat)
    requires maxRows == 0x8000_0000
    ensures FetchAll(Opened([1], [Page([2])], maxRows), [1, 1, 1, 1], r => true, LimitOf(maxRows)).1 == [1]
    ensures RowLimit.FirstRows([1] + AllRows([Page([2])]), maxRows) == [1, 2]
  {
    BarredDelivers([1], [Page([2])], maxRows, [1, 1, 1, 1]);
    assert AllRows([Page([2])]) == [2] + AllRows([]);
  }

  /** Under a limit of 2^32 + 1, later pages are cut to one row. */
  lemma MaxRowsCutsShort(page: seq<Row>)
    requires |page| > 1
    ensures Pending(Opened([], [Page(page)], 0x1_0000_0001), LimitOf(0x1_0000_0001)) == page[..1]
  {
    assert Deliverable([Page(page)], LimitOf(0x1_0000_0001)) == page[..1] + Deliverable([], LimitOf(0x1_0000_0001));
  }
}
