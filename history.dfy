/** Downloading one conversation's history: page after page, newest first,
    each request asking for messages older than the last one received, until
    a page says no more follow; then the whole list is sorted by `ts`. */
module History {
  import opened Types
  import opened TimeStamps
  import opened Files
  import opened Partition

  // ---------------------------------------------------------------------------
  // The sort: a stable sort on `ts` in string order.

  predicate SortedByTs(s: seq<Message>) {
    forall i, j :: 0 <= i < j < |s| ==> LexLe(s[i].ts, s[j].ts)
  }

  /** `m` placed into `t` after every message whose `ts` is not greater. */
  function Insert(t: seq<Message>, m: Message): seq<Message>
    decreases |t|
  {
    if t == [] then [m]
    else if LexLe(t[|t| - 1].ts, m.ts) then t + [m]
    else Insert(t[..|t| - 1], m) + [t[|t| - 1]]
  }

  /** The list sorted by `ts`, messages with equal `ts` in their original
      order. */
  function SortByTs(s: seq<Message>): seq<Message>
    decreases |s|
  {
    if s == [] then [] else Insert(SortByTs(s[..|s| - 1]), s[|s| - 1])
  }

  /** The messages of `s` whose `ts` is `ts`, in order. */
  function WithTs(s: seq<Message>, ts: string): seq<Message>
    decreases |s|
  {
    if s == [] then []
    else WithTs(s[..|s| - 1], ts) + (if s[|s| - 1].ts == ts then [s[|s| - 1]] else [])
  }

  lemma {:induction false} InsertPermutes(t: seq<Message>, m: Message)
    ensures multiset(Insert(t, m)) == multiset(t) + multiset{m}
    decreases |t|
  {
    if t != [] && !LexLe(t[|t| - 1].ts, m.ts) {
      InsertPermutes(t[..|t| - 1], m);
      assert t == t[..|t| - 1] + [t[|t| - 1]];
    }
  }

  /** Every message `Insert` puts before `m`'s old neighbours is one of
      theirs or `m`. */
  lemma {:induction false} InsertElements(t: seq<Message>, m: Message, x: Message)
    requires x in Insert(t, m)
    ensures x in t || x == m
    decreases |t|
  {
    InsertPermutes(t, m);
    assert x in multiset(Insert(t, m));
  }

  lemma {:induction false} InsertSorted(t: seq<Message>, m: Message)
    requires SortedByTs(t)
    ensures SortedByTs(Insert(t, m))
    decreases |t|
  {
    if t == [] {
    } else if LexLe(t[|t| - 1].ts, m.ts) {
      var r := t + [m];
      forall i, j | 0 <= i < j < |r| ensures LexLe(r[i].ts, r[j].ts) {
        if j == |t| && i < |t| - 1 {
          LexLeTrans(t[i].ts, t[|t| - 1].ts, m.ts);
        }
      }
    } else {
      var init, last := t[..|t| - 1], t[|t| - 1];
      InsertSorted(init, m);
      LexLeTotal(last.ts, m.ts);
      var u := Insert(init, m);
      var r := u + [last];
      forall i, j | 0 <= i < j < |r| ensures LexLe(r[i].ts, r[j].ts) {
        if j == |u| {
          assert r[i] in u;
          InsertElements(init, m, r[i]);
          if r[i] != m {
            var k :| 0 <= k < |init| && init[k] == r[i];
            assert t[k] == r[i];
          }
        }
      }
    }
  }

  lemma {:induction false} InsertWithTs(t: seq<Message>, m: Message, ts: string)
    ensures WithTs(Insert(t, m), ts) == WithTs(t, ts) + (if m.ts == ts then [m] else [])
    decreases |t|
  {
    if t == [] {
      assert [m][..0] == [];
    } else {
      var init, last := t[..|t| - 1], t[|t| - 1];
      if LexLe(last.ts, m.ts) {
        var r := t + [m];
        assert r[..|r| - 1] == t;
      } else {
        InsertWithTs(init, m, ts);
        var r := Insert(init, m) + [last];
        assert r[..|r| - 1] == Insert(init, m);
        if last.ts == m.ts {
          LexLeTotal(last.ts, m.ts);
        }
      }
    }
  }

  /** The sorted list is in `ts` order and holds the same messages, as
      often as the input does. */
  lemma {:induction false} SortByTsSorts(s: seq<Message>)
    ensures SortedByTs(SortByTs(s))
    ensures multiset(SortByTs(s)) == multiset(s)
    decreases |s|
  {
    if s != [] {
      var init, last := s[..|s| - 1], s[|s| - 1];
      SortByTsSorts(init);
      InsertSorted(SortByTs(init), last);
      InsertPermutes(SortByTs(init), last);
      assert s == init + [last];
    }
  }

  /** The sort is stable: messages with the same `ts` keep their order. */
  lemma {:induction false} SortByTsStable(s: seq<Message>, ts: string)
    ensures WithTs(SortByTs(s), ts) == WithTs(s, ts)
    decreases |s|
  {
    if s != [] {
      var init, last := s[..|s| - 1], s[|s| - 1];
      SortByTsStable(init, ts);
      InsertWithTs(SortByTs(init), last, ts);
    }
  }

  // ---------------------------------------------------------------------------
  // The paging loop. The history call of the Web API is an oracle: given the
  // `latest` cursor it returns one page (the channel, `oldest` and the page
  // size stay fixed through one download).

  type Api = Option<string> -> Page

  /** What the download yields after at most `n` more requests, starting at
      cursor `latest` with `acc` received so far; `None` when `n` requests
      do not reach a last page. A page that says more follow while nothing
      has been received at all leaves no last message to take the next
      cursor from. */
  function Fetch(api: Api, latest: Option<string>, acc: seq<Message>, n: nat): Option<Result<seq<Message>>>
    decreases n
  {
    if n == 0 then None
    else
      var page := api(latest);
      var got := acc + page.messages;
      if !page.hasMore then Some(Ok(got))
      else if got == [] then Some(Err(NoLastMessage))
      else Fetch(api, Some(got[|got| - 1].ts), got, n - 1)
  }

  /** The download ends within `n` requests. */
  predicate EndsWithin(api: Api, n: nat) {
    Fetch(api, None, [], n).Some?
  }

  /** The result of the download: the received messages sorted by `ts`. */
  function Downloaded(api: Api, n: nat): Result<seq<Message>>
    requires EndsWithin(api, n)
  {
    var got :- Fetch(api, None, [], n).value;
    Ok(SortByTs(got))
  }

  /** Allowing more requests than needed changes nothing. */
  lemma {:induction false} FetchMore(api: Api, latest: Option<string>, acc: seq<Message>, n: nat, n': nat)
    requires Fetch(api, latest, acc, n).Some? && n <= n'
    ensures Fetch(api, latest, acc, n') == Fetch(api, latest, acc, n)
    decreases n
  {
    var page := api(latest);
    var got := acc + page.messages;
    if page.hasMore && got != [] {
      FetchMore(api, Some(got[|got| - 1].ts), got, n - 1, n' - 1);
    }
  }

  /** One request of the download. */
  lemma FetchOnce(api: Api, latest: Option<string>, acc: seq<Message>, n: nat)
    requires Fetch(api, latest, acc, n).Some?
    ensures n > 0
    ensures var got := acc + api(latest).messages;
      && (!api(latest).hasMore ==> Fetch(api, latest, acc, n) == Some(Ok(got)))
      && (api(latest).hasMore && got == [] ==> Fetch(api, latest, acc, n) == Some(Err(NoLastMessage)))
      && (api(latest).hasMore && got != [] ==>
            Fetch(api, Some(got[|got| - 1].ts), got, n - 1) == Fetch(api, latest, acc, n))
  {
  }

  /** The result does not depend on the bound it was computed under. */
  lemma DownloadedAnyBound(api: Api, n: nat, n': nat)
    requires EndsWithin(api, n) && EndsWithin(api, n')
    ensures Downloaded(api, n) == Downloaded(api, n')
  {
    if n <= n' {
      FetchMore(api, None, [], n, n');
    } else {
      FetchMore(api, None, [], n', n);
    }
  }

  /** Once a message has been received there is always a last one to take
      the cursor from: only the first page can make the download fail. */
  lemma {:induction false} FetchAfterSome(api: Api, latest: Option<string>, acc: seq<Message>, n: nat)
    requires acc != [] && Fetch(api, latest, acc, n).Some?
    ensures Fetch(api, latest, acc, n).value.Ok?
    decreases n
  {
    var got := acc + api(latest).messages;
    if api(latest).hasMore {
      FetchAfterSome(api, Some(got[|got| - 1].ts), got, n - 1);
    }
  }

  /** The download fails exactly when the first page is empty and says more
      follow. */
  lemma DownloadFails(api: Api, n: nat)
    requires EndsWithin(api, n)
    ensures Downloaded(api, n).Err? <==> api(None).hasMore && api(None).messages == []
    ensures Downloaded(api, n).Err? ==> Downloaded(api, n).error == NoLastMessage
  {
    var got := [] + api(None).messages;
    if api(None).hasMore && got != [] {
      FetchAfterSome(api, Some(got[|got| - 1].ts), got, n - 1);
    }
  }

  /** All the messages of the pages, in the order received. */
  function Concat(pages: seq<Page>): seq<Message>
    decreases |pages|
  {
    if pages == [] then [] else Concat(pages[..|pages| - 1]) + pages[|pages| - 1].messages
  }

  lemma ConcatSnoc(pages: seq<Page>, p: Page)
    ensures Concat(pages + [p]) == Concat(pages) + p.messages
  {
    assert (pages + [p])[..|pages|] == pages;
  }

  /** The cursor sent with request `i` when `pages` are the answers: none
      with the first, and later the `ts` of the last message received before
      it. */
  function Cursor(pages: seq<Page>, i: nat): Option<string>
    requires i <= |pages|
  {
    var got := Concat(pages[..i]);
    if i == 0 || got == [] then None else Some(got[|got| - 1].ts)
  }

  lemma CursorPrefix(pages: seq<Page>, p: Page, i: nat)
    requires i <= |pages|
    ensures Cursor(pages + [p], i) == Cursor(pages, i)
  {
    assert (pages + [p])[..i] == pages[..i];
  }

  /** The pages are the oracle's answers to the cursors the loop sends, a
      message had been received before every request but the first, and all
      but the most recent page said more follow. */
  ghost predicate Requested(api: Api, pages: seq<Page>) {
    && pages != []
    && forall i {:trigger Cursor(pages, i)} | 0 <= i < |pages| ::
         && pages[i] == api(Cursor(pages, i))
         && (i < |pages| - 1 ==> pages[i].hasMore)
         && (0 < i ==> Concat(pages[..i]) != [])
  }

  /** Between two requests: every page so far said more follow, and
      `latest` is the cursor of the next request. */
  ghost predicate Pending(api: Api, pages: seq<Page>, latest: Option<string>) {
    if pages == [] then latest == None
    else
      && Requested(api, pages) && pages[|pages| - 1].hasMore
      && Concat(pages) != [] && latest == Cursor(pages, |pages|)
  }

  /** Sending the pending cursor extends the record of requests. */
  lemma Ask(api: Api, pages: seq<Page>, latest: Option<string>)
    requires Pending(api, pages, latest)
    ensures Requested(api, pages + [api(latest)])
  {
    var ps := pages + [api(latest)];
    forall i | 0 <= i < |ps|
      ensures ps[i] == api(Cursor(ps, i))
      ensures i < |ps| - 1 ==> ps[i].hasMore
      ensures 0 < i ==> Concat(ps[..i]) != []
    {
      CursorPrefix(pages, api(latest), i);
      assert (pages + [api(latest)])[..i] == pages[..i];
      if i == |pages| {
        assert pages[..i] == pages;
      }
    }
  }

  /** After a page saying more follow, the next cursor is the last `ts`
      received. */
  lemma StillPending(api: Api, pages: seq<Page>)
    requires Requested(api, pages) && pages[|pages| - 1].hasMore && Concat(pages) != []
    ensures Pending(api, pages, Some(Concat(pages)[|Concat(pages)| - 1].ts))
  {
    assert pages[..|pages|] == pages;
  }

  /** Requests the history page by page. A page saying more follow sets the
      cursor to the `ts` of the last message received so far (the pause
      before the next request is left out); a page saying none follow ends
      the loop, and the whole list is sorted by `ts`. Taking the last
      message of an empty list fails. */
  method GetHistory(api: Api, ghost bound: nat) returns (r: Result<seq<Message>>, ghost pages: seq<Page>)
    requires EndsWithin(api, bound)
    ensures r == Downloaded(api, bound)
    ensures Requested(api, pages)
    ensures r.Ok? ==> !pages[|pages| - 1].hasMore && r.value == SortByTs(Concat(pages))
    ensures r.Err? ==> pages[|pages| - 1].hasMore && Concat(pages) == [] && r.error == NoLastMessage
  {
    var messages: seq<Message> := [];
    var lastTimestamp: Option<string> := None;
    ghost var left, goal := bound, Fetch(api, None, [], bound);
    pages := [];
    while true
      invariant Fetch(api, lastTimestamp, messages, left) == goal && goal.Some?
      invariant messages == Concat(pages)
      invariant Pending(api, pages, lastTimestamp)
      decreases left
    {
      var response := api(lastTimestamp);
      FetchOnce(api, lastTimestamp, messages, left);
      Ask(api, pages, lastTimestamp);
      ConcatSnoc(pages, response);
      pages := pages + [response];
      messages := messages + response.messages;
      if response.hasMore {
        if messages == [] {
          r := Err(NoLastMessage);
          return;
        }
        lastTimestamp := Some(messages[|messages| - 1].ts);
        StillPending(api, pages);
        left := left - 1;
      } else {
        break;
      }
    }
    r := Ok(SortByTs(messages));
  }

  /** A download that succeeds holds every message of every page, as often
      as the pages hold it, in `ts` order. */
  lemma DownloadedSorted(api: Api, n: nat, pages: seq<Page>)
    requires EndsWithin(api, n) && Downloaded(api, n).Ok?
    requires Downloaded(api, n).value == SortByTs(Concat(pages))
    ensures SortedByTs(Downloaded(api, n).value)
    ensures multiset(Downloaded(api, n).value) == multiset(Concat(pages))
  {
    SortByTsSorts(Concat(pages));
  }

  // ---------------------------------------------------------------------------
  // From the download to the day files.

  /** Slack's `ts` values have ten whole-second digits, so string order is
      time order and the sorted history is in day order, as the
      partitioner expects. */
  lemma {:induction false} SortedHistoryIsDaySorted(s: seq<Message>, width: nat)
    requires SortedByTs(s)
    requires forall m | m in s :: StampOfWidth(m.ts, width) && Value(m.ts[..width]) <= MaxSeconds
    ensures AllStamped(s) && DaySorted(s, DayOf)
  {
    forall m | m in s ensures MessageDay(m) == Ok(Day(Value(m.ts[..width]) / SecondsPerDay)) {
      FixedWidthParses(m.ts, width);
    }
    forall i, j | 0 <= i < j < |s| ensures Ord(DayOf(s[i])) <= Ord(DayOf(s[j])) {
      assert s[i] in s && s[j] in s;
      StringOrderIsTimeOrder(s[i].ts, s[j].ts, width);
      DayMonotone(Value(s[i].ts[..width]), Value(s[j].ts[..width]));
    }
  }

  lemma DayMonotone(a: nat, b: nat)
    requires a <= b
    ensures a / SecondsPerDay <= b / SecondsPerDay
  {
  }
}
