/** GetAllQueryResults: polls until the job has rows or is complete, then follows page tokens to the end. */
module QueryPaging {
  import opened SqlTypes

  type Row = int

  /** A response: job state, rows of the page, token of the next one, and everything else (schema, counters). */
  datatype Response = Response(jobComplete: bool, rows: seq<Row>, pageToken: string, header: int)

  /** One round: whether the clock had passed the deadline before it, and what the server would answer. */
  datatype Round = Round(late: bool, reply: Option<Response>)

  datatype Outcome =
    | Results(response: Response)
    | TimedOut      // HYT00
    | Failed        // the client's own status
    | StillRunning  // the rounds seen so far have not ended the loop

  // What the rounds amount to

  /** An incomplete job without rows is polled again. */
  predicate Accepted(r: Round) {
    r.reply.Some? && (r.reply.value.jobComplete || r.reply.value.rows != [])
  }

  function Pages(rounds: seq<Round>): seq<Response>
    decreases |rounds|
  {
    if rounds == [] then []
    else WithPage(Pages(rounds[..|rounds| - 1]), rounds[|rounds| - 1])
  }

  function WithPage(pages: seq<Response>, r: Round): seq<Response> {
    if Accepted(r) then pages + [r.reply.value] else pages
  }

  function AllRows(pages: seq<Response>): seq<Row>
    decreases |pages|
  {
    if pages == [] then [] else AllRows(pages[..|pages| - 1]) + pages[|pages| - 1].rows
  }

  /** The token of the newest page, which the next request carries; the first request carries none. */
  function TokenAfter(pages: seq<Response>): string {
    if pages == [] then "" else pages[|pages| - 1].pageToken
  }

  /** The page whose header survives: the first one with rows, or else the newest. */
  function HeaderPage(pages: seq<Response>): (k: int)
    requires pages != []
    ensures 0 <= k < |pages|
    ensures forall j :: 0 <= j < k ==> pages[j].rows == []
    ensures k < |pages| - 1 ==> pages[k].rows != []
    decreases |pages|
  {
    if |pages| == 1 then 0
    else
      var k := HeaderPage(pages[..|pages| - 1]);
      if pages[k].rows == [] then |pages| - 1 else k
  }

  /** A round after which the loop goes on. */
  predicate GoesOn(r: Round, timeout: int) {
    !(timeout > 0 && r.late) && r.reply.Some? && (Accepted(r) ==> r.reply.value.pageToken != "")
  }

  lemma OneMoreRound(rounds: seq<Round>, n: nat)
    requires n < |rounds|
    ensures Pages(rounds[..n + 1]) == WithPage(Pages(rounds[..n]), rounds[n])
  {
    assert rounds[..n + 1][..n] == rounds[..n];
  }

  lemma {:induction false} NoRowsIff(pages: seq<Response>)
    ensures AllRows(pages) == [] <==> forall j :: 0 <= j < |pages| ==> pages[j].rows == []
    decreases |pages|
  {
    if pages == [] {
    } else {
      var front := pages[..|pages| - 1];
      NoRowsIff(front);
      assert forall j :: 0 <= j < |front| ==> front[j] == pages[j];
      if AllRows(pages) == [] {
        assert AllRows(front) == [];
      }
    }
  }

  /** What is kept after a page: its rows behind the earlier ones, under the first header that had rows. */
  predicate Holds(results: Response, pages: seq<Response>) {
    && results.rows == AllRows(pages)
    && (pages != [] ==> results.header == pages[HeaderPage(pages)].header
                        && results.jobComplete == pages[HeaderPage(pages)].jobComplete)
  }

  lemma OneMorePage(results: Response, pages: seq<Response>, page: Response)
    requires Holds(results, pages)
    ensures Holds(if results.rows == [] then page else results.(rows := results.rows + page.rows), pages + [page])
  {
    var all := pages + [page];
    assert all[..|pages|] == pages;
    NoRowsIff(pages);
    if pages != [] {
      assert all[HeaderPage(pages)] == pages[HeaderPage(pages)];
    }
  }

  /** The first response is taken whole, later ones append their rows. */
  method Merge(results: Response, ghost pages: seq<Response>, page: Response) returns (merged: Response)
    requires Holds(results, pages)
    ensures Holds(merged, pages + [page])
  {
    OneMorePage(results, pages, page);
    merged := if results.rows == [] then page else results.(rows := results.rows + page.rows);
  }

  /** Request i carries the token of the page before it. */
  predicate TokensFollow(sent: seq<string>, rounds: seq<Round>) {
    |sent| <= |rounds| && forall i :: 0 <= i < |sent| ==> sent[i] == TokenAfter(Pages(rounds[..i]))
  }

  lemma OneMoreToken(sent: seq<string>, rounds: seq<Round>, token: string)
    requires TokensFollow(sent, rounds) && |sent| < |rounds| && token == TokenAfter(Pages(rounds[..|sent|]))
    ensures TokensFollow(sent + [token], rounds)
  {
  }

  /** Why the loop ended with the last of the rounds it used. */
  predicate EndsWith(o: Outcome, last: Round, timeout: int) {
    match o
    case StillRunning => GoesOn(last, timeout)
    case TimedOut => timeout > 0 && last.late
    case Failed => !(timeout > 0 && last.late) && last.reply.None?
    case Results(r) =>
      && !(timeout > 0 && last.late) && Accepted(last)
      && last.reply.value.pageToken == "" && r.pageToken == ""
  }

  /** One turn of the loop: an answer is a failure, a reason to poll again, or a page. */
  method Turn(round: Round, timeout: int, token: string, results: Response, ghost pages: seq<Response>)
    returns (o: Outcome, nextToken: string, next: Response)
    requires Holds(results, pages) && token == TokenAfter(pages)
    ensures EndsWith(o, round, timeout)
    ensures o.TimedOut? <==> timeout > 0 && round.late
    ensures o.Failed? <==> (timeout <= 0 || !round.late) && round.reply.None?
    ensures o.StillRunning? <==>
              && (timeout <= 0 || !round.late) && round.reply.Some?
              && (round.reply.value.pageToken != "" || (!round.reply.value.jobComplete && round.reply.value.rows == []))
    ensures o == StillRunning ==> Holds(next, WithPage(pages, round)) && nextToken == TokenAfter(WithPage(pages, round))
    ensures o.Results? ==> Holds(o.response, WithPage(pages, round))
  {
    nextToken, next := token, results;
    if timeout > 0 && round.late {
      return TimedOut, nextToken, next;
    }
    if round.reply.None? {
      return Failed, nextToken, next;
    }
    var partial := round.reply.value;
    if !partial.jobComplete && partial.rows == [] {
      return StillRunning, nextToken, next;
    }
    next := Merge(results, pages, partial);
    if partial.pageToken == "" {
      next := next.(pageToken := "");
      return Results(next), nextToken, next;
    }
    return StillRunning, partial.pageToken, next;
  }

  /** Rows come back in the order of the accepted pages; the rounds used are those up to the first that ends the loop. */
  method GetAllQueryResults(rounds: seq<Round>, timeout: int) returns (o: Outcome, sent: seq<string>, used: nat)
    ensures used <= |rounds| && forall i :: 0 <= i < used - 1 ==> GoesOn(rounds[i], timeout)
    ensures if used == 0 then o == StillRunning && rounds == [] else EndsWith(o, rounds[used - 1], timeout)
    ensures o == StillRunning ==> used == |rounds|
    ensures o.Results? ==> Holds(o.response, Pages(rounds[..used]))
    ensures TokensFollow(sent, rounds) && |sent| == if o.TimedOut? then used - 1 else used
    ensures sent != [] ==> sent[0] == ""
  {
    var token := "";
    var results := Response(false, [], "", 0);
    o, sent, used := StillRunning, [], 0;
    while used < |rounds|
      invariant used <= |rounds| && |sent| == used && o == StillRunning
      invariant forall i :: 0 <= i < used ==> GoesOn(rounds[i], timeout)
      invariant TokensFollow(sent, rounds) && token == TokenAfter(Pages(rounds[..used]))
      invariant Holds(results, Pages(rounds[..used]))
    {
      ghost var pages := Pages(rounds[..used]);
      OneMoreRound(rounds, used);
      OneMoreToken(sent, rounds, token);
      var request := token;
      o, token, results := Turn(rounds[used], timeout, token, results, pages);
      used := used + 1;
      if !o.TimedOut? {
        sent := sent + [request];
      }
      if o != StillRunning {
        break;
      }
    }
  }

  // Against a server that pages through a table

  /** The pages of a table, each answering the token of the one before it; only the last has no token. */
  ghost predicate PagedBy(table: seq<Response>, answer: string -> Response) {
    && table != [] && answer("") == table[0]
    && (forall k :: 0 < k < |table| ==> answer(table[k - 1].pageToken) == table[k])
    && (forall k :: 0 <= k < |table| ==> (table[k].pageToken == "" <==> k == |table| - 1))
  }

  /** Each of the first n rounds either asks to poll again or answers the token that was sent. */
  ghost predicate Answered(rounds: seq<Round>, n: nat, answer: string -> Response) {
    n <= |rounds| && forall i :: 0 <= i < n && Accepted(rounds[i]) ==>
      rounds[i].reply == Some(answer(TokenAfter(Pages(rounds[..i]))))
  }

  /** The token behind the first k pages brings page k. */
  lemma TokenBrings(table: seq<Response>, answer: string -> Response, k: nat)
    requires PagedBy(table, answer) && k < |table|
    ensures answer(TokenAfter(table[..k])) == table[k]
  {
    if k > 0 {
      assert table[..k][k - 1] == table[k - 1];
    }
  }

  lemma {:induction false} PagesArePrefix(rounds: seq<Round>, n: nat, timeout: int, table: seq<Response>,
                                          answer: string -> Response)
    requires PagedBy(table, answer) && Answered(rounds, n, answer)
    requires forall i :: 0 <= i < n ==> GoesOn(rounds[i], timeout)
    ensures |Pages(rounds[..n])| < |table| && Pages(rounds[..n]) == table[..|Pages(rounds[..n])|]
  {
    if n == 0 {
    } else {
      PagesArePrefix(rounds, n - 1, timeout, table, answer);
      OneMoreRound(rounds, n - 1);
      var k := |Pages(rounds[..n - 1])|;
      TokenBrings(table, answer, k);
      assert table[..k + 1] == table[..k] + [table[k]];
    }
  }

  /** When the loop ends with results, their pages are the whole table, however often the job had to be polled. */
  lemma WholeTable(rounds: seq<Round>, used: nat, timeout: int, table: seq<Response>, answer: string -> Response)
    requires PagedBy(table, answer) && Answered(rounds, used, answer)
    requires used > 0 && forall i :: 0 <= i < used - 1 ==> GoesOn(rounds[i], timeout)
    requires Accepted(rounds[used - 1]) && rounds[used - 1].reply.value.pageToken == ""
    ensures Pages(rounds[..used]) == table
  {
    PagesArePrefix(rounds, used - 1, timeout, table, answer);
    OneMoreRound(rounds, used - 1);
    var pages, page := Pages(rounds[..used - 1]), rounds[used - 1].reply.value;
    var k := |pages|;
    TokenBrings(table, answer, k);
    assert page == answer(TokenAfter(pages)) == table[k];
    LastPageEndsTable(table, k);
  }

  lemma LastPageEndsTable(table: seq<Response>, k: nat)
    requires k == |table| - 1
    ensures table == table[..k] + [table[k]]
  {
  }
}
