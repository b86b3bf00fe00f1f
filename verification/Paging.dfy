/** Cursor paging: the server half and the client half that follows cursors to the end.

    The cursor is the decimal timestamp of the last event returned, and the next page starts
    strictly after it, so events that share a timestamp across a page boundary are lost. The
    client is proved to collect every match exactly when no timestamp straddles a boundary.
 */
module Paging {
  import opened Wrappers
  import opened Decimal
  import opened Events
  import opened Sorting
  import opened LedgerSpec
  import opened LedgerInvariants

  /** Of a service asked for, if any is named, and with an actor or target asked for, if any is named. */
  predicate Wanted(services: seq<string>, subjects: seq<NaraName>, e: SyncEvent) {
    && (|services| > 0 ==> Service(e.payload) in services)
    && (|subjects| > 0 ==> GetActor(e) in subjects || GetTarget(e) in subjects)
  }

  /** An empty or unreadable cursor starts from timestamp zero. */
  function CursorTime(cursor: string): int {
    match ParseInt(cursor)
    case Some(t) => t
    case None => 0
  }

  function Rest(events: seq<SyncEvent>, since: int, services: seq<string>, subjects: seq<NaraName>): seq<SyncEvent> {
    Matching(events, Page(since, services, subjects))
  }

  /** The oldest `pageSize` of the matches, and a cursor if the page is full. */
  ghost predicate IsPage(rest: seq<SyncEvent>, pageSize: int, page: seq<SyncEvent>, nextCursor: string) {
    exists sorted :: IsPageOf(rest, sorted, pageSize, page, nextCursor)
  }

  ghost predicate IsPageOf(rest: seq<SyncEvent>, sorted: seq<SyncEvent>, pageSize: int, page: seq<SyncEvent>,
                           nextCursor: string) {
    && SortedArrangement(rest, sorted, ByTimestamp())
    && page == (if 0 < pageSize < |sorted| then sorted[..pageSize] else sorted)
    && nextCursor == if pageSize > 0 && |page| == pageSize then FormatInt(page[pageSize - 1].timestamp) else ""
  }

  method GetEventsPage(events: seq<SyncEvent>, cursor: string, pageSize: int, services: seq<string>,
                       subjects: seq<NaraName>)
    returns (page: seq<SyncEvent>, nextCursor: string)
    ensures IsPage(Rest(events, CursorTime(cursor), services, subjects), pageSize, page, nextCursor)
  {
    var since := 0;
    if cursor != "" {
      match ParseInt(cursor) {
        case Some(t) => since := t;
        case None =>
      }
    }
    page := FilterEvents(events, since, services, subjects);
    page := SortSlice(page, ByTimestamp());
    ghost var sorted := page;
    var hasMore := false;
    if pageSize > 0 && |page| > pageSize {
      hasMore := true;
      page := page[..pageSize];
    }
    nextCursor := "";
    if hasMore || (pageSize > 0 && |page| == pageSize) {
      nextCursor := FormatInt(page[|page| - 1].timestamp);
    }
    assert IsPageOf(Rest(events, since, services, subjects), sorted, pageSize, page, nextCursor);
  }

  method FilterEvents(events: seq<SyncEvent>, since: int, services: seq<string>, subjects: seq<NaraName>)
    returns (filtered: seq<SyncEvent>)
    ensures filtered == Rest(events, since, services, subjects)
  {
    ghost var q := Page(since, services, subjects);
    filtered := [];
    for i := 0 to |events|
      invariant filtered == Matching(events[..i], q)
    {
      assert events[..i + 1] == events[..i] + [events[i]];
      MatchingSnoc(events[..i], events[i], q);
      var e := events[i];
      if e.timestamp <= since {
        continue;
      }
      if |services| > 0 && Service(e.payload) !in services {
        continue;
      }
      if |subjects| > 0 && GetActor(e) !in subjects && GetTarget(e) !in subjects {
        continue;
      }
      filtered := filtered + [e];
    }
    assert events[..|events|] == events;
  }

  lemma RestIs(events: seq<SyncEvent>, since: int, services: seq<string>, subjects: seq<NaraName>, e: SyncEvent)
    ensures e in Rest(events, since, services, subjects) <==> e in events && e.timestamp > since && Wanted(services, subjects, e)
  {
    MatchingMembers(events, Page(since, services, subjects));
  }

  /** A page of `rest`: in time order, and what is not on it is no older, and the page is full then. A full
      page ends with the cursor that the next one starts after; any other page ends the listing. */
  lemma PageIsOldest(rest: seq<SyncEvent>, pageSize: int, page: seq<SyncEvent>, nextCursor: string)
    requires IsPage(rest, pageSize, page, nextCursor)
    ensures multiset(page) <= multiset(rest) && (pageSize > 0 ==> |page| <= pageSize)
    ensures forall e :: e in page ==> e in rest
    ensures forall i, j :: 0 <= i < j < |page| ==> page[i].timestamp <= page[j].timestamp
    ensures forall e :: e in rest && e !in page ==> 0 < pageSize == |page|
    ensures forall e, x :: e in rest && e !in page && x in page ==> x.timestamp <= e.timestamp
    ensures nextCursor == if 0 < pageSize == |page| then FormatInt(page[pageSize - 1].timestamp) else ""
  {
    var sorted :| IsPageOf(rest, sorted, pageSize, page, nextCursor);
    SameElements(rest, sorted);
    assert page == sorted[..|page|];
    StartsOldest(rest, sorted, |page|);
    forall e | e in page ensures e in rest {
      assert e in multiset(page);
    }
  }

  /** A page: wanted events after the cursor's time, oldest first. One that is wanted, after that time and
      not on the page is no older than any on it, and the page is full then. */
  lemma PageIs(events: seq<SyncEvent>, since: int, services: seq<string>, subjects: seq<NaraName>, pageSize: int,
               page: seq<SyncEvent>, nextCursor: string)
    requires IsPage(Rest(events, since, services, subjects), pageSize, page, nextCursor)
    ensures multiset(page) <= multiset(events) && (pageSize > 0 ==> |page| <= pageSize)
    ensures forall e :: e in page ==> e in events && e.timestamp > since && Wanted(services, subjects, e)
    ensures forall i, j :: 0 <= i < j < |page| ==> page[i].timestamp <= page[j].timestamp
    ensures forall e :: e in events && e.timestamp > since && Wanted(services, subjects, e) && e !in page ==>
              0 < pageSize == |page| && forall x :: x in page ==> x.timestamp <= e.timestamp
    ensures nextCursor == if 0 < pageSize == |page| then FormatInt(page[pageSize - 1].timestamp) else ""
  {
    PageIsOldest(Rest(events, since, services, subjects), pageSize, page, nextCursor);
    forall e ensures multiset(Rest(events, since, services, subjects))[e] <= multiset(events)[e] {
      MatchingMultiset(events, Page(since, services, subjects), e);
    }
    forall e ensures e in Rest(events, since, services, subjects)
                     <==> e in events && e.timestamp > since && Wanted(services, subjects, e) {
      RestIs(events, since, services, subjects, e);
    }
  }

  // ---------- what is left after a cursor ----------

  lemma RestMultiset(events: seq<SyncEvent>, c: int, t: int, services: seq<string>, subjects: seq<NaraName>,
                     e: SyncEvent)
    requires c <= t
    ensures multiset(Rest(events, t, services, subjects))[e]
            == if e.timestamp > t then multiset(Rest(events, c, services, subjects))[e] else 0
  {
    MatchingMultiset(events, Page(t, services, subjects), e);
    MatchingMultiset(events, Page(c, services, subjects), e);
  }

  lemma SortedTimes(s: seq<SyncEvent>, n: nat)
    requires Sorted(s, ByTimestamp()) && n <= |s|
    ensures forall i :: 0 <= i < n && n < |s| ==> s[i].timestamp <= s[n].timestamp
    ensures forall j :: n <= j < |s| ==> s[n].timestamp <= s[j].timestamp
  {
  }

  /** After a page that ends at time `t` the rest is what the page left, less ties with `t`. */
  lemma RestAfterPage(events: seq<SyncEvent>, c: int, services: seq<string>, subjects: seq<NaraName>,
                      sorted: seq<SyncEvent>, n: nat)
    requires SortedArrangement(Rest(events, c, services, subjects), sorted, ByTimestamp())
    requires 0 < n <= |sorted|
    ensures sorted[n - 1].timestamp > c
    ensures var rest := Rest(events, sorted[n - 1].timestamp, services, subjects);
            && multiset(rest) <= multiset(sorted[n..])
            && (|rest| == |sorted| - n <==> (n < |sorted| ==> sorted[n - 1].timestamp < sorted[n].timestamp))
  {
    var t := sorted[n - 1].timestamp;
    TimesAfter(events, c, services, subjects, sorted, n - 1);
    var rest := Rest(events, t, services, subjects);
    forall e ensures multiset(rest)[e] <= multiset(sorted[n..])[e] {
      RestMultiset(events, c, t, services, subjects, e);
      FrontHasNoLater(sorted, n, e);
    }
    if n < |sorted| && sorted[n].timestamp == t {
      RestMultiset(events, c, t, services, subjects, sorted[n]);
      assert sorted[n] in sorted[n..];
      StrictlyFewer(rest, sorted[n..], sorted[n]);
    } else {
      forall e ensures multiset(rest)[e] == multiset(sorted[n..])[e] {
        RestMultiset(events, c, t, services, subjects, e);
        FrontHasNoLater(sorted, n, e);
        if e in sorted[n..] {
          SortedTimes(sorted, n);
        }
      }
      SameElements(rest, sorted[n..]);
    }
  }

  lemma TimesAfter(events: seq<SyncEvent>, c: int, services: seq<string>, subjects: seq<NaraName>,
                   sorted: seq<SyncEvent>, i: nat)
    requires multiset(sorted) == multiset(Rest(events, c, services, subjects)) && i < |sorted|
    ensures sorted[i].timestamp > c
  {
    SameElements(Rest(events, c, services, subjects), sorted);
    MatchingMembers(events, Page(c, services, subjects));
    assert sorted[i] in sorted;
  }

  lemma FrontHasNoLater(sorted: seq<SyncEvent>, n: nat, e: SyncEvent)
    requires Sorted(sorted, ByTimestamp()) && 0 < n <= |sorted|
    ensures multiset(sorted[n..])[e] <= multiset(sorted)[e]
    ensures e.timestamp > sorted[n - 1].timestamp ==> multiset(sorted[n..])[e] == multiset(sorted)[e]
  {
    assert sorted == sorted[..n] + sorted[n..];
    if e in sorted[..n] {
      var i :| 0 <= i < n && sorted[..n][i] == e;
      SortedTimes(sorted, n - 1);
    }
  }

  lemma StrictlyFewer(a: seq<SyncEvent>, b: seq<SyncEvent>, e: SyncEvent)
    requires multiset(a) <= multiset(b) && e !in a && e in b
    ensures |a| < |b|
  {
    assert multiset(a) <= multiset(b) - multiset{e} by {
      assert e !in multiset(a);
    }
    SubMultisetSize(multiset(a), multiset(b) - multiset{e});
    assert |multiset(a)| == |a| && |multiset(b)| == |b|;
  }

  /** Everything from the event's own time on is still ahead just before that time. */
  lemma RestBeforeTime(events: seq<SyncEvent>, c: int, services: seq<string>, subjects: seq<NaraName>,
                       sorted: seq<SyncEvent>, i: nat)
    requires SortedArrangement(Rest(events, c, services, subjects), sorted, ByTimestamp()) && i < |sorted|
    ensures sorted[i].timestamp > c
    ensures |Rest(events, sorted[i].timestamp - 1, services, subjects)| >= |sorted| - i
  {
    var t := sorted[i].timestamp - 1;
    TimesAfter(events, c, services, subjects, sorted, i);
    var rest := Rest(events, t, services, subjects);
    forall e ensures multiset(sorted[i..])[e] <= multiset(rest)[e] {
      RestMultiset(events, c, t, services, subjects, e);
      assert sorted == sorted[..i] + sorted[i..];
      if e in sorted[i..] {
        SortedTimes(sorted, i);
      }
    }
    SubMultisetSize(multiset(sorted[i..]), multiset(rest));
    assert |multiset(sorted[i..])| == |sorted| - i && |multiset(rest)| == |rest|;
  }

  // ---------- when paging is complete ----------

  /** In time order, the matches that share `e`'s timestamp take the positions from
      `FirstPosition` up to, but not including, `EndPosition`. */
  function FirstPosition(events: seq<SyncEvent>, services: seq<string>, subjects: seq<NaraName>, timestamp: int): int {
    |Rest(events, 0, services, subjects)| - |Rest(events, timestamp - 1, services, subjects)|
  }

  function EndPosition(events: seq<SyncEvent>, services: seq<string>, subjects: seq<NaraName>, timestamp: int): int {
    |Rest(events, 0, services, subjects)| - |Rest(events, timestamp, services, subjects)|
  }

  /** The page a position falls on, if all pages are full. */
  function PageOf(position: int, size: int): nat
    requires size > 0
  {
    if position < size then 0 else 1 + PageOf(position - size, size)
  }

  /** Does a page begin at this position? */
  predicate Boundary(position: int, size: int)
    requires size > 0
  {
    position == 0 || (position >= size && Boundary(position - size, size))
  }

  /** No timestamp straddles a page boundary: its first and last position are on one page. */
  ghost predicate OnOnePage(events: seq<SyncEvent>, services: seq<string>, subjects: seq<NaraName>, size: int,
                            timestamp: int)
    requires size > 0
  {
    PageOf(FirstPosition(events, services, subjects, timestamp), size)
    == PageOf(EndPosition(events, services, subjects, timestamp) - 1, size)
  }

  ghost predicate NoStraddling(events: seq<SyncEvent>, services: seq<string>, subjects: seq<NaraName>, size: int)
    requires size > 0
  {
    forall e :: e in Rest(events, 0, services, subjects) ==> OnOnePage(events, services, subjects, size, e.timestamp)
  }

  ghost predicate NoStraddlingUpTo(events: seq<SyncEvent>, services: seq<string>, subjects: seq<NaraName>, size: int,
                                   c: int)
    requires size > 0
  {
    forall e :: e in Rest(events, 0, services, subjects) && e.timestamp <= c ==>
                  OnOnePage(events, services, subjects, size, e.timestamp)
  }

  lemma RestShrinks(events: seq<SyncEvent>, c: int, t: int, services: seq<string>, subjects: seq<NaraName>)
    requires c <= t
    ensures multiset(Rest(events, t, services, subjects)) <= multiset(Rest(events, c, services, subjects))
    ensures |Rest(events, t, services, subjects)| <= |Rest(events, c, services, subjects)|
  {
    var a, b := Rest(events, t, services, subjects), Rest(events, c, services, subjects);
    forall e ensures multiset(a)[e] <= multiset(b)[e] {
      RestMultiset(events, c, t, services, subjects, e);
    }
    SubMultisetSize(multiset(a), multiset(b));
    assert |multiset(a)| == |a| && |multiset(b)| == |b|;
  }

  lemma RestMembers(events: seq<SyncEvent>, c: int, t: int, services: seq<string>, subjects: seq<NaraName>)
    requires c <= t
    ensures forall e :: e in Rest(events, t, services, subjects) <==> e in Rest(events, c, services, subjects) && e.timestamp > t
  {
    MatchingMembers(events, Page(c, services, subjects));
    MatchingMembers(events, Page(t, services, subjects));
  }

  lemma GroupBounds(events: seq<SyncEvent>, services: seq<string>, subjects: seq<NaraName>, c: int, e: SyncEvent)
    requires 0 <= c && e in Rest(events, c, services, subjects)
    ensures e.timestamp > c
    ensures |Rest(events, e.timestamp, services, subjects)| < |Rest(events, e.timestamp - 1, services, subjects)|
    ensures |Rest(events, e.timestamp - 1, services, subjects)| <= |Rest(events, c, services, subjects)|
  {
    RestMembers(events, c, c, services, subjects);
    RestShrinks(events, c, e.timestamp - 1, services, subjects);
    OwnGroup(events, services, subjects, c, e);
  }

  lemma OwnGroup(events: seq<SyncEvent>, services: seq<string>, subjects: seq<NaraName>, c: int, e: SyncEvent)
    requires e in Rest(events, c, services, subjects) && c < e.timestamp
    ensures |Rest(events, e.timestamp, services, subjects)| < |Rest(events, e.timestamp - 1, services, subjects)|
  {
    var after, before := Rest(events, e.timestamp, services, subjects), Rest(events, e.timestamp - 1, services, subjects);
    RestMembers(events, c, e.timestamp - 1, services, subjects);
    RestMembers(events, c, e.timestamp, services, subjects);
    RestShrinks(events, e.timestamp - 1, e.timestamp, services, subjects);
    StrictlyFewer(after, before, e);
  }

  lemma {:induction false} SamePage(first: int, end: int, done: int, size: int)
    requires size > 0 && Boundary(done, size) && done <= first < end <= done + size
    ensures PageOf(first, size) == PageOf(end - 1, size)
    decreases done
  {
    if done >= size {
      SamePage(first - size, end - size, done - size, size);
    }
  }

  lemma {:induction false} OtherPage(first: int, end: int, done: int, size: int)
    requires size > 0 && Boundary(done, size) && done <= first < done + size < end
    ensures PageOf(first, size) < PageOf(end - 1, size)
    decreases done
  {
    if done >= size {
      OtherPage(first - size, end - size, done - size, size);
    }
  }

  /** While nothing has been lost, the groups that end within the next page are whole. */
  lemma GroupsOnPage(events: seq<SyncEvent>, services: seq<string>, subjects: seq<NaraName>, size: int, c: int, t: int)
    requires size > 0 && 0 <= c <= t
    requires var done := |Rest(events, 0, services, subjects)| - |Rest(events, c, services, subjects)|;
             && done >= 0 && Boundary(done, size)
             && |Rest(events, 0, services, subjects)| - |Rest(events, t, services, subjects)| <= done + size
    requires NoStraddlingUpTo(events, services, subjects, size, c)
    ensures NoStraddlingUpTo(events, services, subjects, size, t)
  {
    var done := |Rest(events, 0, services, subjects)| - |Rest(events, c, services, subjects)|;
    forall e | e in Rest(events, 0, services, subjects) && c < e.timestamp <= t
      ensures OnOnePage(events, services, subjects, size, e.timestamp)
    {
      RestMembers(events, 0, c, services, subjects);
      GroupBounds(events, services, subjects, c, e);
      RestShrinks(events, e.timestamp, t, services, subjects);
      SamePage(FirstPosition(events, services, subjects, e.timestamp),
               EndPosition(events, services, subjects, e.timestamp), done, size);
    }
  }

  /** A page that cuts a group of equal timestamps in two. */
  lemma CutGroupStraddles(events: seq<SyncEvent>, services: seq<string>, subjects: seq<NaraName>, size: int, c: int,
                          sorted: seq<SyncEvent>)
    requires size > 0 && 0 <= c
    requires SortedArrangement(Rest(events, c, services, subjects), sorted, ByTimestamp()) && size <= |sorted|
    requires |Rest(events, sorted[size - 1].timestamp, services, subjects)| < |sorted| - size
    requires var done := |Rest(events, 0, services, subjects)| - |Rest(events, c, services, subjects)|;
             done >= 0 && Boundary(done, size)
    ensures !NoStraddling(events, services, subjects, size)
  {
    var e := sorted[size - 1];
    SameElements(Rest(events, c, services, subjects), sorted);
    assert e in sorted;
    RestMembers(events, 0, c, services, subjects);
    RestBeforeTime(events, c, services, subjects, sorted, size - 1);
    GroupBounds(events, services, subjects, c, e);
    OtherPage(FirstPosition(events, services, subjects, e.timestamp),
              EndPosition(events, services, subjects, e.timestamp),
              |Rest(events, 0, services, subjects)| - |Rest(events, c, services, subjects)|, size);
    assert !OnOnePage(events, services, subjects, size, e.timestamp);
  }

  /** What the client has after following cursors up to time `c`. */
  ghost predicate Gathered(events: seq<SyncEvent>, services: seq<string>, subjects: seq<NaraName>, size: int,
                           all: seq<SyncEvent>, c: int)
    requires size > 0
  {
    var rest, matches := Rest(events, c, services, subjects), Rest(events, 0, services, subjects);
    && c >= 0 && Boundary(|all|, size)
    && multiset(all) + multiset(rest) <= multiset(matches)
    && Sorted(all, ByTimestamp()) && (forall e :: e in all ==> e.timestamp <= c)
    && if |all| + |rest| == |matches| then NoStraddlingUpTo(events, services, subjects, size, c)
       else !NoStraddling(events, services, subjects, size)
  }

  lemma GatherPage(events: seq<SyncEvent>, services: seq<string>, subjects: seq<NaraName>, size: int,
                   all: seq<SyncEvent>, c: int, sorted: seq<SyncEvent>)
    requires size > 0 && Gathered(events, services, subjects, size, all, c)
    requires SortedArrangement(Rest(events, c, services, subjects), sorted, ByTimestamp()) && size <= |sorted|
    ensures sorted[size - 1].timestamp > c
    ensures Gathered(events, services, subjects, size, all + sorted[..size], sorted[size - 1].timestamp)
    ensures |Rest(events, sorted[size - 1].timestamp, services, subjects)| < |Rest(events, c, services, subjects)|
  {
    var t := sorted[size - 1].timestamp;
    RestAfterPage(events, c, services, subjects, sorted, size);
    SameElements(Rest(events, c, services, subjects), sorted);
    GatheredElements(events, services, subjects, size, all, c, sorted, size);
    assert |all + sorted[..size]| - size == |all|;
    PageVerdict(events, services, subjects, size, all, c, sorted);
  }

  /** A page loses something exactly when it cuts a group. */
  lemma PageVerdict(events: seq<SyncEvent>, services: seq<string>, subjects: seq<NaraName>, size: int,
                    all: seq<SyncEvent>, c: int, sorted: seq<SyncEvent>)
    requires size > 0 && Gathered(events, services, subjects, size, all, c)
    requires SortedArrangement(Rest(events, c, services, subjects), sorted, ByTimestamp()) && size <= |sorted|
    ensures var t := sorted[size - 1].timestamp;
            var rest' := |Rest(events, t, services, subjects)|;
            && rest' <= |sorted| - size
            && if |all| + size + rest' == |Rest(events, 0, services, subjects)|
               then NoStraddlingUpTo(events, services, subjects, size, t)
               else !NoStraddling(events, services, subjects, size)
  {
    var t := sorted[size - 1].timestamp;
    var rest' := Rest(events, t, services, subjects);
    RestAfterPage(events, c, services, subjects, sorted, size);
    SameElements(Rest(events, c, services, subjects), sorted);
    SubMultisetSize(multiset(rest'), multiset(sorted[size..]));
    assert |multiset(rest')| == |rest'| && |multiset(sorted[size..])| == |sorted| - size;
    GatheredSize(events, services, subjects, size, all, c);
    if |all| + |sorted| == |Rest(events, 0, services, subjects)| {
      if |rest'| == |sorted| - size {
        GroupsOnPage(events, services, subjects, size, c, t);
      } else {
        CutGroupStraddles(events, services, subjects, size, c, sorted);
      }
    }
  }

  lemma GatheredSize(events: seq<SyncEvent>, services: seq<string>, subjects: seq<NaraName>, size: int,
                     all: seq<SyncEvent>, c: int)
    requires size > 0 && Gathered(events, services, subjects, size, all, c)
    ensures |all| + |Rest(events, c, services, subjects)| <= |Rest(events, 0, services, subjects)|
  {
    var rest, matches := Rest(events, c, services, subjects), Rest(events, 0, services, subjects);
    SubMultisetSize(multiset(all) + multiset(rest), multiset(matches));
    assert |multiset(all) + multiset(rest)| == |all| + |rest| && |multiset(matches)| == |matches|;
  }

  lemma GatheredElements(events: seq<SyncEvent>, services: seq<string>, subjects: seq<NaraName>, size: int,
                         all: seq<SyncEvent>, c: int, sorted: seq<SyncEvent>, n: nat)
    requires size > 0 && Gathered(events, services, subjects, size, all, c)
    requires SortedArrangement(Rest(events, c, services, subjects), sorted, ByTimestamp()) && n <= |sorted|
    ensures multiset(all + sorted[..n]) + multiset(sorted[n..]) <= multiset(Rest(events, 0, services, subjects))
    ensures Sorted(all + sorted[..n], ByTimestamp())
    ensures n > 0 ==> forall e :: e in all + sorted[..n] ==> e.timestamp <= sorted[n - 1].timestamp
  {
    assert sorted == sorted[..n] + sorted[n..];
    PageTimes(events, c, services, subjects, sorted, n);
    SortedJoin(all, sorted[..n], c);
  }

  lemma PageTimes(events: seq<SyncEvent>, c: int, services: seq<string>, subjects: seq<NaraName>,
                  sorted: seq<SyncEvent>, n: nat)
    requires SortedArrangement(Rest(events, c, services, subjects), sorted, ByTimestamp()) && n <= |sorted|
    ensures Sorted(sorted[..n], ByTimestamp())
    ensures forall e :: e in sorted[..n] ==> c < e.timestamp <= sorted[n - 1].timestamp
  {
    SortedSplit(sorted, ByTimestamp(), n);
    forall i | 0 <= i < n ensures c < sorted[i].timestamp <= sorted[n - 1].timestamp {
      TimesAfter(events, c, services, subjects, sorted, i);
      SortedTimes(sorted, i);
    }
  }

  lemma SortedJoin(a: seq<SyncEvent>, b: seq<SyncEvent>, c: int)
    requires Sorted(a, ByTimestamp()) && Sorted(b, ByTimestamp())
    requires forall e :: e in a ==> e.timestamp <= c
    requires forall e :: e in b ==> c < e.timestamp
    ensures Sorted(a + b, ByTimestamp())
  {
    var joined := a + b;
    forall i, j | 0 <= i < j < |joined| ensures !Below(ByTimestamp()(joined[j]), ByTimestamp()(joined[i])) {
      if i < |a| <= j {
        assert a[i] in a && b[j - |a|] in b;
      } else if |a| <= i {
        assert joined[i] == b[i - |a|] && joined[j] == b[j - |a|];
      }
    }
  }

  ghost predicate Int64Times(events: seq<SyncEvent>) {
    forall e :: e in events ==> IsInt64(e.timestamp)
  }

  lemma CursorRoundTrip(events: seq<SyncEvent>, e: SyncEvent)
    requires Int64Times(events) && e in events
    ensures FormatInt(e.timestamp) != "" && CursorTime(FormatInt(e.timestamp)) == e.timestamp
  {
    ParseFormatInt(e.timestamp);
    FormatIntHasNoColon(e.timestamp);
  }

  /** The client: follow cursors until a page comes without one. On a ledger that does not
      change it terminates; it collects only matches with positive timestamps, none more often
      than it is held, oldest first; and it collects all of them if and only if no timestamp
      straddles a page boundary. It collects all matches there are if and only if, besides, none
      of them has a negative timestamp (or zero): pages start after timestamp zero. */
  method FetchAll(events: seq<SyncEvent>, pageSize: int, services: seq<string>, subjects: seq<NaraName>)
    returns (all: seq<SyncEvent>)
    requires pageSize > 0 && Int64Times(events)
    ensures forall i, j :: 0 <= i < j < |all| ==> all[i].timestamp <= all[j].timestamp
    ensures multiset(all) <= multiset(Rest(events, 0, services, subjects))
    ensures multiset(all) == multiset(Rest(events, 0, services, subjects))
            <==> NoStraddling(events, services, subjects, pageSize)
    ensures multiset(all) == multiset(AllMatches(events, services, subjects))
            <==> NoStraddling(events, services, subjects, pageSize)
                 && forall e :: e in AllMatches(events, services, subjects) ==> e.timestamp > 0
  {
    all := [];
    var cursor := "";
    ghost var c := 0;
    GatherNothing(events, services, subjects, pageSize);
    while true
      invariant CursorTime(cursor) == c
      invariant Gathered(events, services, subjects, pageSize, all, c)
      decreases |Rest(events, c, services, subjects)|
    {
      var page, nextCursor := GetEventsPage(events, cursor, pageSize, services, subjects);
      c := NextPage(events, services, subjects, pageSize, all, c, page, nextCursor);
      all := all + page;
      if nextCursor == "" {
        CompleteIff(events, services, subjects, pageSize, all);
        AscendingTimes(all);
        return;
      }
      cursor := nextCursor;
    }
  }

  // ---------- all matches, whatever their timestamps ----------

  /** Every event of the services and subjects asked for. */
  function AllMatches(events: seq<SyncEvent>, services: seq<string>, subjects: seq<NaraName>): seq<SyncEvent> {
    if events == [] then []
    else
      var front, last := AllMatches(events[..|events| - 1], services, subjects), events[|events| - 1];
      if Wanted(services, subjects, last) then front + [last] else front
  }

  lemma {:induction false} RestIsPart(events: seq<SyncEvent>, services: seq<string>, subjects: seq<NaraName>)
    ensures multiset(Rest(events, 0, services, subjects)) <= multiset(AllMatches(events, services, subjects))
  {
    if events != [] {
      RestIsPart(events[..|events| - 1], services, subjects);
    }
  }

  lemma {:induction false} PositiveMatches(events: seq<SyncEvent>, services: seq<string>, subjects: seq<NaraName>)
    requires forall e :: e in AllMatches(events, services, subjects) ==> e.timestamp > 0
    ensures Rest(events, 0, services, subjects) == AllMatches(events, services, subjects)
  {
    if events != [] {
      var front := AllMatches(events[..|events| - 1], services, subjects);
      assert forall e :: e in front ==> e in AllMatches(events, services, subjects);
      PositiveMatches(events[..|events| - 1], services, subjects);
    }
  }

  lemma RestIsPositive(events: seq<SyncEvent>, services: seq<string>, subjects: seq<NaraName>)
    ensures forall e :: e in Rest(events, 0, services, subjects) ==> e.timestamp > 0
  {
    MatchingMembers(events, Page(0, services, subjects));
  }

  lemma CompleteIff(events: seq<SyncEvent>, services: seq<string>, subjects: seq<NaraName>, size: int,
                    all: seq<SyncEvent>)
    requires size > 0 && multiset(all) <= multiset(Rest(events, 0, services, subjects))
    requires multiset(all) == multiset(Rest(events, 0, services, subjects)) <==> NoStraddling(events, services, subjects, size)
    ensures multiset(all) == multiset(AllMatches(events, services, subjects))
            <==> NoStraddling(events, services, subjects, size)
                 && forall e :: e in AllMatches(events, services, subjects) ==> e.timestamp > 0
  {
    var rest, matches := Rest(events, 0, services, subjects), AllMatches(events, services, subjects);
    RestIsPart(events, services, subjects);
    if multiset(all) == multiset(matches) {
      assert multiset(rest) == multiset(matches);
      SameElements(rest, matches);
      RestIsPositive(events, services, subjects);
    }
    if forall e :: e in matches ==> e.timestamp > 0 {
      PositiveMatches(events, services, subjects);
    }
  }

  lemma GatherNothing(events: seq<SyncEvent>, services: seq<string>, subjects: seq<NaraName>, size: int)
    requires size > 0
    ensures CursorTime("") == 0 && Gathered(events, services, subjects, size, [], 0)
  {
    MatchingMembers(events, Page(0, services, subjects));
  }

  lemma NextPage(events: seq<SyncEvent>, services: seq<string>, subjects: seq<NaraName>, size: int,
                 all: seq<SyncEvent>, c: int, page: seq<SyncEvent>, nextCursor: string) returns (next: int)
    requires size > 0 && Int64Times(events) && Gathered(events, services, subjects, size, all, c)
    requires IsPage(Rest(events, c, services, subjects), size, page, nextCursor)
    ensures nextCursor != "" ==>
              && CursorTime(nextCursor) == next
              && Gathered(events, services, subjects, size, all + page, next)
              && |Rest(events, next, services, subjects)| < |Rest(events, c, services, subjects)|
    ensures nextCursor == "" ==>
              && Sorted(all + page, ByTimestamp())
              && multiset(all + page) <= multiset(Rest(events, 0, services, subjects))
              && (multiset(all + page) == multiset(Rest(events, 0, services, subjects))
                  <==> NoStraddling(events, services, subjects, size))
  {
    next := CursorTime(nextCursor);
    if |page| == size {
      FullPage(events, services, subjects, size, all, c, page, nextCursor);
    } else {
      LastPage(events, services, subjects, size, all, c, page, nextCursor);
    }
  }

  lemma FullPage(events: seq<SyncEvent>, services: seq<string>, subjects: seq<NaraName>, size: int,
                 all: seq<SyncEvent>, c: int, page: seq<SyncEvent>, nextCursor: string)
    requires size > 0 && Int64Times(events) && Gathered(events, services, subjects, size, all, c)
    requires IsPage(Rest(events, c, services, subjects), size, page, nextCursor) && |page| == size
    ensures nextCursor != "" && CursorTime(nextCursor) > c
    ensures Gathered(events, services, subjects, size, all + page, CursorTime(nextCursor))
    ensures |Rest(events, CursorTime(nextCursor), services, subjects)| < |Rest(events, c, services, subjects)|
  {
    var sorted :| IsPageOf(Rest(events, c, services, subjects), sorted, size, page, nextCursor);
    assert page == sorted[..size];
    PageIsFull(events, services, subjects, c, sorted, size);
    GatherPage(events, services, subjects, size, all, c, sorted);
  }

  lemma PageIsFull(events: seq<SyncEvent>, services: seq<string>, subjects: seq<NaraName>, c: int,
                   sorted: seq<SyncEvent>, size: int)
    requires Int64Times(events) && 0 < size <= |sorted|
    requires SortedArrangement(Rest(events, c, services, subjects), sorted, ByTimestamp())
    ensures var cursor := FormatInt(sorted[size - 1].timestamp);
            cursor != "" && CursorTime(cursor) == sorted[size - 1].timestamp
  {
    SameElements(Rest(events, c, services, subjects), sorted);
    MatchingMembers(events, Page(c, services, subjects));
    assert sorted[size - 1] in sorted;
    CursorRoundTrip(events, sorted[size - 1]);
  }

  lemma LastPage(events: seq<SyncEvent>, services: seq<string>, subjects: seq<NaraName>, size: int,
                 all: seq<SyncEvent>, c: int, page: seq<SyncEvent>, nextCursor: string)
    requires size > 0 && Gathered(events, services, subjects, size, all, c)
    requires IsPage(Rest(events, c, services, subjects), size, page, nextCursor) && |page| != size
    ensures nextCursor == ""
    ensures Sorted(all + page, ByTimestamp())
    ensures multiset(all + page) <= multiset(Rest(events, 0, services, subjects))
    ensures multiset(all + page) == multiset(Rest(events, 0, services, subjects))
            <==> NoStraddling(events, services, subjects, size)
  {
    var sorted :| IsPageOf(Rest(events, c, services, subjects), sorted, size, page, nextCursor);
    assert page == sorted;
    RemainderCompletes(events, services, subjects, size, all, c, sorted);
  }

  lemma RemainderCompletes(events: seq<SyncEvent>, services: seq<string>, subjects: seq<NaraName>, size: int,
                           all: seq<SyncEvent>, c: int, sorted: seq<SyncEvent>)
    requires size > 0 && Gathered(events, services, subjects, size, all, c)
    requires SortedArrangement(Rest(events, c, services, subjects), sorted, ByTimestamp()) && |sorted| < size
    ensures Sorted(all + sorted, ByTimestamp())
    ensures multiset(all + sorted) <= multiset(Rest(events, 0, services, subjects))
    ensures multiset(all + sorted) == multiset(Rest(events, 0, services, subjects))
            <==> NoStraddling(events, services, subjects, size)
  {
    var rest, matches := Rest(events, c, services, subjects), Rest(events, 0, services, subjects);
    SameElements(rest, sorted);
    GatheredSize(events, services, subjects, size, all, c);
    GatheredElements(events, services, subjects, size, all, c, sorted, |sorted|);
    assert sorted[..|sorted|] == sorted && multiset(sorted[|sorted|..]) == multiset{};
    if |all| + |rest| == |matches| {
      EqualBySize(all + sorted, matches);
      forall e | e in matches ensures OnOnePage(events, services, subjects, size, e.timestamp) {
        var t := if e.timestamp > c then e.timestamp else c;
        GroupsOnPage(events, services, subjects, size, c, t);
      }
    } else {
      assert |multiset(all + sorted)| == |all| + |sorted| && |multiset(matches)| == |matches|;
    }
  }

  lemma EqualBySize(a: seq<SyncEvent>, b: seq<SyncEvent>)
    requires multiset(a) <= multiset(b) && |a| == |b|
    ensures multiset(a) == multiset(b)
  {
    assert multiset(b) == multiset(a) + (multiset(b) - multiset(a));
    assert |multiset(a)| == |a| && |multiset(b)| == |b|;
    assert |multiset(b) - multiset(a)| == 0;
  }

  /** With distinct timestamps paging is complete for every page size. */
  lemma DistinctTimesDoNotStraddle(events: seq<SyncEvent>, services: seq<string>, subjects: seq<NaraName>, size: int)
    requires size > 0 && Distinct(events)
    requires forall a, b :: a in events && b in events && a.timestamp == b.timestamp ==> a == b
    ensures NoStraddling(events, services, subjects, size)
  {
    forall e | e in Rest(events, 0, services, subjects) ensures OnOnePage(events, services, subjects, size, e.timestamp) {
      GroupBounds(events, services, subjects, 0, e);
      SingletonGroup(events, services, subjects, e);
    }
  }

  lemma SingletonGroup(events: seq<SyncEvent>, services: seq<string>, subjects: seq<NaraName>, e: SyncEvent)
    requires Distinct(events) && e in Rest(events, 0, services, subjects)
    requires forall a, b :: a in events && b in events && a.timestamp == b.timestamp ==> a == b
    ensures |Rest(events, e.timestamp - 1, services, subjects)| <= |Rest(events, e.timestamp, services, subjects)| + 1
  {
    var before, after := Rest(events, e.timestamp - 1, services, subjects), Rest(events, e.timestamp, services, subjects);
    MatchingMembers(events, Page(0, services, subjects));
    DistinctMeansOnce(events);
    forall x ensures multiset(before)[x] <= (multiset(after) + multiset{e})[x] {
      MatchingMultiset(events, Page(e.timestamp - 1, services, subjects), x);
      MatchingMultiset(events, Page(e.timestamp, services, subjects), x);
      if x in events && x.timestamp == e.timestamp {
        assert x == e && x in multiset(events);
      }
    }
    SubMultisetSize(multiset(before), multiset(after) + multiset{e});
    assert |multiset(before)| == |before| && |multiset(after) + multiset{e}| == |after| + 1;
  }
}
