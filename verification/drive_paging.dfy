/** The page loop of a delta pull: what it delivers when the cursor between two pages is a
    rounded time, when it ends, and when it does not. */
module DrivePaging {
  import opened Common
  import opened DrivePaths
  import opened DriveModel

  const PAGE_LIMIT: nat := 500

  /** After some pages: the rows delivered, the cursor, and whether the last page was full. */
  datatype Pull = Pull(feed: seq<Row>, since: nat, more: bool)

  function Pages(rows: seq<Row>, since: nat, limit: nat, n: nat): Pull {
    if n == 0 then Pull([], since, true)
    else
      var q := Pages(rows, since, limit, n - 1);
      if !q.more then q
      else
        var page := Page(rows, q.since, limit);
        Pull(q.feed + page, NextSince(page, q.since), |page| >= limit)
  }

  lemma {:induction false} PagesAreRows(rows: seq<Row>, since: nat, limit: nat, n: nat)
    ensures Pages(rows, since, limit, n).since >= since
    ensures forall x | x in Pages(rows, since, limit, n).feed :: x in rows && x.ts > Mark(since)
  {
    if n > 0 {
      PagesAreRows(rows, since, limit, n - 1);
      var q := Pages(rows, since, limit, n - 1);
      forall x | x in Page(rows, q.since, limit) ensures x in rows && x.ts > Mark(since) {
        SinceMember(rows, Mark(q.since), x);
      }
    }
  }

  // ------------------------------------------------------------- repeated rows

  function Add(rows: seq<Row>, x: Row): seq<Row> {
    if rows != [] && rows[|rows| - 1] == x then rows else rows + [x]
  }

  /** Without the rows that only repeat the one before them. */
  function Squeeze(rows: seq<Row>): seq<Row> {
    if rows == [] then [] else Add(Squeeze(rows[..|rows| - 1]), rows[|rows| - 1])
  }

  lemma SqueezeSnoc(a: seq<Row>, x: Row)
    ensures Squeeze(a + [x]) == Add(Squeeze(a), x)
  {
    assert (a + [x])[..|a|] == a;
  }

  lemma SqueezeEnds(a: seq<Row>)
    requires a != []
    ensures Squeeze(a) != [] && Squeeze(a)[|Squeeze(a)| - 1] == a[|a| - 1]
  {
  }

  lemma SqueezeNew(a: seq<Row>, x: Row)
    requires a != [] ==> a[|a| - 1].ts < x.ts
    ensures Squeeze(a + [x]) == Squeeze(a) + [x]
  {
    SqueezeSnoc(a, x);
    if a != [] {
      SqueezeEnds(a);
    }
  }

  lemma {:induction false} SqueezeMore(a: seq<Row>, b: seq<Row>)
    requires Increasing(b) && (a != [] && b != [] ==> a[|a| - 1].ts < b[0].ts)
    ensures Squeeze(a + b) == Squeeze(a) + b
  {
    if b == [] {
      assert a + b == a;
    } else {
      var front, x := b[..|b| - 1], b[|b| - 1];
      SqueezeMore(a, front);
      SqueezeNew(a + front, x);
      Regroup(a, front, x, b);
      Regroup(Squeeze(a), front, x, b);
    }
  }

  lemma Regroup(a: seq<Row>, front: seq<Row>, x: Row, b: seq<Row>)
    requires b != [] && front == b[..|b| - 1] && x == b[|b| - 1]
    ensures (a + front) + [x] == a + b
  {
  }

  /** A page that begins with the last row again, or does not. */
  lemma SqueezePage(feed: seq<Row>, again: seq<Row>, unseen: seq<Row>)
    requires again == [] || (feed != [] && again == [feed[|feed| - 1]])
    requires Increasing(unseen) && (feed != [] && unseen != [] ==> feed[|feed| - 1].ts < unseen[0].ts)
    ensures Squeeze(feed + (again + unseen)) == Squeeze(feed) + unseen
  {
    assert feed + (again + unseen) == (feed + again) + unseen;
    if again == [] {
      assert feed + again == feed;
    } else {
      SqueezeSnoc(feed, again[0]);
      SqueezeEnds(feed);
    }
    SqueezeMore(feed + again, unseen);
  }

  lemma SplitFeed(rows: seq<Row>, from: nat, unseen: seq<Row>, rest: seq<Row>)
    requires Increasing(rows) && Since(rows, from) == unseen + rest
    ensures Increasing(unseen) && forall i | 0 <= i < |unseen| :: unseen[i].ts > from
    ensures unseen != [] ==> unseen[|unseen| - 1] in rows && Since(rows, unseen[|unseen| - 1].ts) == rest
  {
    var all := unseen + rest;
    SinceRows(rows, from);
    forall i | 0 <= i < |unseen| ensures unseen[i] == all[i] && unseen[i].ts > from {
      assert all[i] in all;
    }
    if unseen != [] {
      SinceAgain(rows, from, |unseen| - 1);
      assert all[|unseen| - 1] in all && all[|unseen|..] == rest;
    }
  }

  /** Repeats do not change which row of a path is the last. */
  lemma {:induction false} SqueezeLatest(rows: seq<Row>, p: Rel)
    ensures Latest(Squeeze(rows), p) == Latest(rows, p)
  {
    if rows != [] {
      var front, x := Squeeze(rows[..|rows| - 1]), rows[|rows| - 1];
      SqueezeLatest(rows[..|rows| - 1], p);
      assert (front + [x])[..|front|] == front;
    }
  }

  // ------------------------------------------------------------- what the loop delivers

  /** The exact time the last delivered row has, and the cursor made of it. */
  function LastTs(since: nat, feed: seq<Row>): nat {
    if feed == [] then Mark(since) else feed[|feed| - 1].ts
  }

  function CursorOf(since: nat, feed: seq<Row>): nat {
    if feed == [] then since else Ms(feed[|feed| - 1].ts)
  }

  /** What is delivered, without repeats, and what is ahead make up the feed; the cursor is the
      rounded time of the last row delivered. */
  ghost predicate Orderly(rows: seq<Row>, since: nat, q: Pull, ahead: seq<Row>) {
    && (q.feed != [] ==> q.feed[|q.feed| - 1] in rows)
    && q.since == CursorOf(since, q.feed)
    && ahead == Since(rows, LastTs(since, q.feed))
    && Squeeze(q.feed) + ahead == Since(rows, Mark(since))
    && (!q.more ==> ahead == [])
  }

  predicate Repeats(feed: seq<Row>, again: seq<Row>) {
    again == [] || (feed != [] && again == [feed[|feed| - 1]])
  }

  lemma PageWithoutNews(rows: seq<Row>, since: nat, q: Pull, again: seq<Row>, ahead: seq<Row>)
    requires Orderly(rows, since, q, ahead) && Repeats(q.feed, again) && ahead == []
    ensures Orderly(rows, since, Pull(q.feed + again, NextSince(again, q.since), false), [])
    ensures Squeeze(q.feed + again) == Squeeze(q.feed)
  {
    if again == [] {
      assert q.feed + again == q.feed;
    } else {
      SqueezeSnoc(q.feed, again[0]);
      SqueezeEnds(q.feed);
    }
  }

  lemma CursorAfterNews(since: nat, feed: seq<Row>, again: seq<Row>, unseen: seq<Row>)
    requires Repeats(feed, again) && unseen != [] && unseen[|unseen| - 1].ts > LastTs(since, feed)
    ensures NextSince(again + unseen, CursorOf(since, feed)) == Ms(unseen[|unseen| - 1].ts)
  {
    var x := unseen[|unseen| - 1];
    if feed == [] {
      PastMark(since, x.ts);
    } else {
      RoundingIsMonotone(feed[|feed| - 1].ts, x.ts);
    }
  }

  lemma PageWithNews(rows: seq<Row>, since: nat, q: Pull, again: seq<Row>, unseen: seq<Row>, rest: seq<Row>, more: bool)
    requires Increasing(rows) && Orderly(rows, since, q, unseen + rest) && Repeats(q.feed, again) && unseen != []
    requires !more ==> rest == []
    ensures Orderly(rows, since, Pull(q.feed + (again + unseen), NextSince(again + unseen, q.since), more), rest)
    ensures |Squeeze(q.feed + (again + unseen))| > |Squeeze(q.feed)|
  {
    SplitFeed(rows, LastTs(since, q.feed), unseen, rest);
    CursorAfterNews(since, q.feed, again, unseen);
    SqueezePage(q.feed, again, unseen);
    Associates(Squeeze(q.feed), unseen, rest);
    LastOf(q.feed, again, unseen);
  }

  lemma Associates(a: seq<Row>, b: seq<Row>, c: seq<Row>)
    ensures (a + b) + c == a + (b + c)
  {
  }

  lemma LastOf(a: seq<Row>, b: seq<Row>, c: seq<Row>)
    requires c != []
    ensures a + (b + c) != [] && (a + (b + c))[|a + (b + c)| - 1] == c[|c| - 1]
  {
  }

  lemma SplitPage(all: seq<Row>, again: seq<Row>, ahead: seq<Row>, limit: nat) returns (unseen: seq<Row>, rest: seq<Row>)
    requires all == again + ahead && |again| <= 1 < limit
    ensures var page := if |all| <= limit then all else all[..limit];
            && page == again + unseen && ahead == unseen + rest
            && (|page| < limit ==> rest == []) && (unseen == [] ==> |page| < limit)
  {
    var page := if |all| <= limit then all else all[..limit];
    var k := |page| - |again|;
    unseen, rest := ahead[..k], ahead[k..];
  }

  /** One page later. What the server answers begins with the last row again or not. */
  lemma NextPage(rows: seq<Row>, since: nat, limit: nat, q: Pull, ahead: seq<Row>) returns (rest: seq<Row>)
    requires Increasing(rows) && Apart(rows) && limit > 1 && Orderly(rows, since, q, ahead)
    ensures var page := Page(rows, q.since, limit);
            var z := Pull(q.feed + page, NextSince(page, q.since), |page| >= limit);
            Orderly(rows, since, z, rest) && (z.more ==> |Squeeze(z.feed)| > |Squeeze(q.feed)|)
  {
    var again := PageBegins(rows, since, q, ahead);
    var page := Page(rows, q.since, limit);
    var unseen;
    unseen, rest := SplitPage(Since(rows, Mark(q.since)), again, ahead, limit);
    TurnPage(rows, since, q, again, unseen, rest, page, limit);
  }

  lemma TurnPage(rows: seq<Row>, since: nat, q: Pull, again: seq<Row>, unseen: seq<Row>, rest: seq<Row>, page: seq<Row>, limit: nat)
    requires Increasing(rows) && Orderly(rows, since, q, unseen + rest) && Repeats(q.feed, again) && page == again + unseen
    requires (|page| < limit ==> rest == []) && (unseen == [] ==> |page| < limit)
    ensures var z := Pull(q.feed + page, NextSince(page, q.since), |page| >= limit);
            Orderly(rows, since, z, rest) && (z.more ==> |Squeeze(z.feed)| > |Squeeze(q.feed)|)
  {
    if unseen == [] {
      assert page == again && unseen + rest == [];
      PageWithoutNews(rows, since, q, again, []);
    } else {
      PageWithNews(rows, since, q, again, unseen, rest, |page| >= limit);
    }
  }

  lemma PageBegins(rows: seq<Row>, since: nat, q: Pull, ahead: seq<Row>) returns (again: seq<Row>)
    requires Increasing(rows) && Apart(rows) && Orderly(rows, since, q, ahead)
    ensures Repeats(q.feed, again) && |again| <= 1 && Since(rows, Mark(q.since)) == again + ahead
  {
    again := [];
    if q.feed != [] {
      var x := q.feed[|q.feed| - 1];
      var k :| 0 <= k < |rows| && rows[k] == x;
      SinceRounded(rows, k);
      again := if RoundsDown(x.ts) then [x] else [];
    }
  }

  /** The page loop, whatever the page size above one. Between rows that are apart it delivers
      every row past the cursor in order, each page's last row perhaps twice and nothing else
      twice, and its cursor is the rounded time of the last row delivered. */
  lemma {:induction false} PagingCoversFeed(rows: seq<Row>, since: nat, limit: nat, n: nat) returns (ahead: seq<Row>)
    requires Increasing(rows) && Apart(rows) && limit > 1
    ensures Orderly(rows, since, Pages(rows, since, limit, n), ahead)
    ensures Pages(rows, since, limit, n).more ==> |Squeeze(Pages(rows, since, limit, n).feed)| >= n
  {
    if n == 0 {
      ahead := Since(rows, Mark(since));
    } else {
      ahead := PagingCoversFeed(rows, since, limit, n - 1);
      var q := Pages(rows, since, limit, n - 1);
      if q.more {
        ahead := NextPage(rows, since, limit, q, ahead);
      }
    }
  }

  /** Between rows that are apart the loop ends, after at most one page per row and one more. */
  lemma PagingEnds(rows: seq<Row>, since: nat, limit: nat)
    requires Increasing(rows) && Apart(rows) && limit > 1
    ensures !Pages(rows, since, limit, |Since(rows, Mark(since))| + 1).more
  {
    var ahead := PagingCoversFeed(rows, since, limit, |Since(rows, Mark(since))| + 1);
  }

  // ------------------------------------------------------------- when the loop ends

  /** From this cursor the server answers a full page whose last row rounds back to it. */
  predicate Crowded(rows: seq<Row>, since: nat, limit: nat) {
    0 < limit <= |Since(rows, Mark(since))| && Since(rows, Mark(since))[limit - 1].ts < Mark(since) + SLACK
  }

  /** After `k` pages the loop goes on, and the next page is crowded. */
  predicate Stuck(rows: seq<Row>, since: nat, limit: nat, k: nat) {
    Pages(rows, since, limit, k).more && Crowded(rows, Pages(rows, since, limit, k).since, limit)
  }

  predicate EndsWithin(rows: seq<Row>, since: nat, limit: nat, n: nat) {
    !Pages(rows, since, limit, n).more
  }

  ghost predicate Ends(rows: seq<Row>, since: nat, limit: nat) {
    exists n: nat :: EndsWithin(rows, since, limit, n)
  }

  /** A crowded page is answered again and again. */
  lemma {:induction false} CrowdedPageNeverEnds(rows: seq<Row>, since: nat, limit: nat, k: nat, n: nat)
    requires k <= n && Stuck(rows, since, limit, k)
    ensures Pages(rows, since, limit, n).more && Pages(rows, since, limit, n).since == Pages(rows, since, limit, k).since
    decreases n
  {
    if k < n {
      CrowdedPageNeverEnds(rows, since, limit, k, n - 1);
      var q := Pages(rows, since, limit, n - 1);
      SinceMember(rows, Mark(q.since), Since(rows, Mark(q.since))[limit - 1]);
    }
  }

  /** Any other full page moves the cursor on. */
  lemma FullPageMovesOn(rows: seq<Row>, since: nat, limit: nat)
    requires limit > 0 && |Page(rows, since, limit)| >= limit && !Crowded(rows, since, limit)
    ensures NextSince(Page(rows, since, limit), since) > since
  {
    var all := Since(rows, Mark(since));
    assert Page(rows, since, limit)[limit - 1] == all[limit - 1];
    RoundingError(all[limit - 1].ts);
  }

  lemma {:induction false} FullPagesMoveOn(rows: seq<Row>, since: nat, limit: nat, n: nat)
    requires limit > 0 && Pages(rows, since, limit, n).more
    requires forall k: nat | k < n :: !Stuck(rows, since, limit, k)
    ensures Pages(rows, since, limit, n).since >= since + n
  {
    if n > 0 {
      var q := Pages(rows, since, limit, n - 1);
      FullPagesMoveOn(rows, since, limit, n - 1);
      assert !Stuck(rows, since, limit, n - 1);
      FullPageMovesOn(rows, q.since, limit);
    }
  }

  /** The cursor never passes the newest row's millisecond, unless it starts past it. */
  lemma {:induction false} CursorStaysBelow(rows: seq<Row>, since: nat, limit: nat, n: nat)
    requires Increasing(rows)
    ensures Pages(rows, since, limit, n).since <= Max(since, SyncCursor(rows))
  {
    if n > 0 {
      CursorStaysBelow(rows, since, limit, n - 1);
      var q := Pages(rows, since, limit, n - 1);
      var page := Page(rows, q.since, limit);
      if q.more && page != [] {
        var x := page[|page| - 1];
        SinceMember(rows, Mark(q.since), x);
        var i :| 0 <= i < |rows| && rows[i] == x;
        RoundingIsMonotone(x.ts, rows[|rows| - 1].ts);
      }
    }
  }

  lemma {:induction false} MoreBefore(rows: seq<Row>, since: nat, limit: nat, k: nat, n: nat)
    requires k <= n && Pages(rows, since, limit, n).more
    ensures Pages(rows, since, limit, k).more
    decreases n
  {
    if k < n {
      MoreBefore(rows, since, limit, k, n - 1);
    }
  }

  /** The page loop ends if and only if it never turns to a crowded page. */
  lemma EndsExactly(rows: seq<Row>, since: nat, limit: nat)
    requires Increasing(rows) && limit > 0
    ensures Ends(rows, since, limit)
            <==> forall k: nat :: !Stuck(rows, since, limit, k)
  {
    if k: nat :| Stuck(rows, since, limit, k) {
      forall n: nat ensures !EndsWithin(rows, since, limit, n) {
        CrowdedPageNeverEnds(rows, since, limit, k, if n < k then k else n);
        if n < k {
          MoreBefore(rows, since, limit, n, k);
        }
      }
      assert !Ends(rows, since, limit);
    } else {
      var n := Max(since, SyncCursor(rows)) - since + 1;
      CursorStaysBelow(rows, since, limit, n);
      if Pages(rows, since, limit, n).more {
        FullPagesMoveOn(rows, since, limit, n);
      }
      assert EndsWithin(rows, since, limit, n);
    }
  }

  /** The feed is the end of the table, from the first row past the cursor. */
  lemma {:induction false} SinceIsTheEnd(rows: seq<Row>, cursor: nat) returns (k: nat)
    requires Increasing(rows)
    ensures k <= |rows| && Since(rows, cursor) == rows[k..]
    ensures forall i | 0 <= i < k :: rows[i].ts <= cursor
    ensures k < |rows| ==> rows[k].ts > cursor
  {
    if rows == [] {
      k := 0;
    } else {
      var last, front := rows[|rows| - 1], rows[..|rows| - 1];
      k := SinceIsTheEnd(front, cursor);
      if last.ts > cursor {
        assert rows[k..] == front[k..] + [last];
        assert forall i | 0 <= i < k :: front[i] == rows[i];
      } else {
        NothingSince(rows, cursor);
        k := |rows|;
      }
    }
  }

  /** A page's worth of rows from the `i`-th on, all strictly inside the first half of one
      millisecond. */
  predicate Pressed(rows: seq<Row>, i: nat, limit: nat) {
    && 0 < limit && i + limit <= |rows| && RoundsDown(rows[i].ts)
    && rows[i + limit - 1].ts < rows[i].ts - rows[i].ts % 1000 + SLACK
  }

  lemma CrowdedIsPressed(rows: seq<Row>, since: nat, limit: nat) returns (i: nat)
    requires Increasing(rows) && Crowded(rows, since, limit)
    ensures Pressed(rows, i, limit)
  {
    i := SinceIsTheEnd(rows, Mark(since));
    assert rows[i + limit - 1] == Since(rows, Mark(since))[limit - 1];
    assert Mark(since) < rows[i].ts <= rows[i + limit - 1].ts;
  }

  lemma PressedIsCrowded(rows: seq<Row>, i: nat, limit: nat)
    requires Increasing(rows) && Pressed(rows, i, limit)
    ensures Crowded(rows, rows[i].ts / 1000, limit)
  {
    var mark := Mark(rows[i].ts / 1000);
    var k := SinceIsTheEnd(rows, mark);
    assert mark == rows[i].ts - rows[i].ts % 1000;
    assert k <= i;
    assert rows[k + limit - 1] == Since(rows, mark)[limit - 1];
  }

  /** So the loop ends from every cursor if and only if no cursor has a crowded page, that is,
      if the table has no page of rows strictly inside the first half of one millisecond. */
  lemma AlwaysEndsExactly(rows: seq<Row>, limit: nat)
    requires Increasing(rows) && limit > 0
    ensures (forall since: nat :: Ends(rows, since, limit)) <==> (forall since: nat :: !Crowded(rows, since, limit))
    ensures (forall since: nat :: Ends(rows, since, limit)) <==> (forall i: nat :: !Pressed(rows, i, limit))
  {
    if since: nat :| Crowded(rows, since, limit) {
      EndsExactly(rows, since, limit);
      assert Stuck(rows, since, limit, 0);
      assert !Ends(rows, since, limit);
      var i := CrowdedIsPressed(rows, since, limit);
    } else {
      forall since: nat ensures Ends(rows, since, limit) {
        EndsExactly(rows, since, limit);
      }
      forall i: nat ensures !Pressed(rows, i, limit) {
        if Pressed(rows, i, limit) {
          PressedIsCrowded(rows, i, limit);
        }
      }
    }
  }

  /** The last row of a path in what a finished pull delivered is its last row past the cursor. */
  lemma DeliveredLatest(rows: seq<Row>, since: nat, limit: nat, n: nat, p: Rel)
    requires Increasing(rows) && Apart(rows) && limit > 1 && !Pages(rows, since, limit, n).more
    ensures Latest(Pages(rows, since, limit, n).feed, p) ==
            if Latest(rows, p).Some? && Latest(rows, p).value.ts > Mark(since) then Latest(rows, p) else None
  {
    var q := Pages(rows, since, limit, n);
    var ahead := PagingCoversFeed(rows, since, limit, n);
    assert Squeeze(q.feed) == Since(rows, Mark(since));
    SqueezeLatest(q.feed, p);
    SinceLatest(rows, Mark(since), p);
  }
}
