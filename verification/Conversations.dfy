/**
  The conversation repository (src/persistence/repositories/conversation_repo.py): titles that stay
  unique among a user's visible conversations, and cursor paging.
*/
module Conversations {
  import opened Prelude
  import opened Decimals

  datatype Row = Row(user: nat, title: string, lastAccessed: int, deleted: bool)

  type Rows = map<nat, Row>

  /** The title column holds at most this many characters. */
  const TITLE_LENGTH := 100

  function VisibleIds(rows: Rows, user: nat): set<nat> {
    set id | id in rows && rows[id].user == user && !rows[id].deleted
  }

  function Titled(rows: Rows, user: nat, title: string): set<nat> {
    set id | id in VisibleIds(rows, user) && rows[id].title == title
  }

  predicate Free(rows: Rows, user: nat, title: string) {
    Titled(rows, user, title) == {}
  }

  // ---- titles --------------------------------------------------------------------------------

  function Candidate(title: string, suffix: nat): string {
    title + " (" + Decimal(suffix) + ")"
  }

  lemma CandidateInjective(title: string, a: nat, b: nat)
    requires Candidate(title, a) == Candidate(title, b)
    ensures a == b
  {
    var x, y := Candidate(title, a), Candidate(title, b);
    assert x[|title| + 2..|x| - 1] == Decimal(a);
    assert y[|title| + 2..|y| - 1] == Decimal(b);
    DecimalInjective(a, b);
  }

  /** The title itself and the candidates with suffixes from 2 to n. */
  ghost function Tried(title: string, n: nat): (ts: set<string>) {
    if n <= 1 then {title} else Tried(title, n - 1) + {Candidate(title, n)}
  }

  lemma {:induction false} TriedAre(title: string, n: nat)
    ensures forall t :: t in Tried(title, n) <==> t == title || exists k: nat :: 2 <= k <= n && t == Candidate(title, k)
  {
    if n >= 2 {
      TriedAre(title, n - 1);
    }
  }

  lemma {:induction false} TriedCount(title: string, n: nat)
    requires n >= 1
    ensures |Tried(title, n)| == n
  {
    if n >= 2 {
      TriedCount(title, n - 1);
      TriedAre(title, n - 1);
      var c := Candidate(title, n);
      assert |c| > |title|;
      if c in Tried(title, n - 1) {
        var k: nat :| 2 <= k <= n - 1 && c == Candidate(title, k);
        CandidateInjective(title, n, k);
      }
    }
  }

  ghost function TitlesOf(rows: Rows, ids: set<nat>): set<string>
    requires ids <= rows.Keys
  {
    set id | id in ids :: rows[id].title
  }

  lemma {:induction false} FewerTitlesThanRows(rows: Rows, ids: set<nat>)
    requires ids <= rows.Keys
    ensures |TitlesOf(rows, ids)| <= |ids|
  {
    if ids != {} {
      var id :| id in ids;
      FewerTitlesThanRows(rows, ids - {id});
      assert TitlesOf(rows, ids) == TitlesOf(rows, ids - {id}) + {rows[id].title};
    }
  }

  /** Pigeonhole: n rows cannot take the title and n candidates. */
  lemma TakenBound(rows: Rows, user: nat, title: string, n: nat)
    requires n >= 1 && !Free(rows, user, title)
    requires forall k: nat :: 2 <= k <= n ==> !Free(rows, user, Candidate(title, k))
    ensures n <= |VisibleIds(rows, user)|
  {
    var ids := VisibleIds(rows, user);
    TriedCount(title, n);
    TriedAre(title, n);
    forall t | t in Tried(title, n)
      ensures t in TitlesOf(rows, ids)
    {
      var id :| id in Titled(rows, user, t);
      assert rows[id].title == t;
    }
    SubsetCard(Tried(title, n), TitlesOf(rows, ids));
    FewerTitlesThanRows(rows, ids);
  }

  /** The title a create ends with: the one asked for, or the least free suffix from 2 on. */
  ghost predicate IsUniqueTitle(rows: Rows, user: nat, title: string, t: string) {
    && Free(rows, user, t)
    && (Free(rows, user, title) ==> t == title)
    && (!Free(rows, user, title) ==>
          exists n: nat :: 2 <= n <= |VisibleIds(rows, user)| + 1 && t == Candidate(title, n)
            && forall k: nat :: 2 <= k < n ==> !Free(rows, user, Candidate(title, k)))
  }

  ghost predicate DistinctTitles(rows: Rows) {
    forall i, j :: i in rows && j in rows && i != j && rows[i].user == rows[j].user && !rows[i].deleted
        && !rows[j].deleted
      ==> rows[i].title != rows[j].title
  }

  datatype Created = Created(title: string) | TooLong

  class Repository {
    var rows: Rows

    /** _unique_title: the loop ends within as many rounds as the user has visible rows. */
    method UniqueTitle(user: nat, title: string) returns (t: string, rounds: nat)
      ensures IsUniqueTitle(rows, user, title, t)
      ensures rounds <= |VisibleIds(rows, user)|
    {
      if Titled(rows, user, title) == {} {
        return title, 0;
      }
      var suffix := 2;
      rounds := 0;
      while true
        invariant suffix >= 2 && rounds == suffix - 2
        invariant forall k: nat :: 2 <= k < suffix ==> !Free(rows, user, Candidate(title, k))
        decreases |VisibleIds(rows, user)| + 2 - suffix
      {
        TakenBound(rows, user, title, suffix - 1);
        rounds := rounds + 1;
        t := Candidate(title, suffix);
        if Titled(rows, user, t) == {} {
          return;
        }
        suffix := suffix + 1;
      }
    }

    /** create_conversation; id is the new row's, and a title over the column's length fails the insert. */
    method Create(id: nat, user: nat, title: string, now: int) returns (r: Created)
      requires id !in rows
      modifies this
      ensures r.Created? ==> IsUniqueTitle(old(rows), user, title, r.title) && |r.title| <= 100
                             && rows == old(rows)[id := Row(user, r.title, now, false)]
      ensures r.TooLong? ==> rows == old(rows)
                             && exists t :: IsUniqueTitle(old(rows), user, title, t) && |t| > 100
      ensures old(DistinctTitles(rows)) ==> DistinctTitles(rows)
    {
      var t, _ := UniqueTitle(user, title);
      if |t| > TITLE_LENGTH {
        return TooLong;
      }
      forall j | j in rows && rows[j].user == user && !rows[j].deleted
        ensures rows[j].title != t
      {
        assert j !in Titled(rows, user, t);
      }
      rows := rows[id := Row(user, t, now, false)];
      return Created(t);
    }

    /** soft_delete_conversation: a no-op on another user's row. */
    method SoftDelete(user: nat, id: nat)
      modifies this
      ensures rows == if id in old(rows) && old(rows)[id].user == user
                      then old(rows)[id := old(rows)[id].(deleted := true)] else old(rows)
      ensures old(DistinctTitles(rows)) ==> DistinctTitles(rows)
      ensures VisibleIds(rows, user) == VisibleIds(old(rows), user) - {id}
    {
      if id in rows && rows[id].user == user {
        rows := rows[id := rows[id].(deleted := true)];
      }
    }
  }

  /** The least free suffix is determined, so a create has one possible title. */
  lemma UniqueTitleIsUnique(rows: Rows, user: nat, title: string, t: string, u: string)
    requires IsUniqueTitle(rows, user, title, t) && IsUniqueTitle(rows, user, title, u)
    ensures t == u
  {
    if !Free(rows, user, title) {
      var m: nat :| 2 <= m && t == Candidate(title, m)
                   && forall k: nat :: 2 <= k < m ==> !Free(rows, user, Candidate(title, k));
      var n: nat :| 2 <= n && u == Candidate(title, n)
                   && forall k: nat :: 2 <= k < n ==> !Free(rows, user, Candidate(title, k));
      assert m <= n && n <= m;
    }
  }

  // ---- serial runs ---------------------------------------------------------------------------

  datatype Op = CreateOp(id: nat, user: nat, title: string, now: int) | DeleteOp(user: nat, id: nat)

  /** One operation as a relation between the rows before and after. */
  ghost predicate Does(before: Rows, op: Op, after: Rows) {
    match op
    case CreateOp(id, user, title, now) =>
      id !in before &&
      (exists t :: IsUniqueTitle(before, user, title, t)
                   && after == if |t| > TITLE_LENGTH then before else before[id := Row(user, t, now, false)])
    case DeleteOp(user, id) =>
      after == if id in before && before[id].user == user then before[id := before[id].(deleted := true)] else before
  }

  /** states[k + 1] is what ops[k] makes of states[k]. */
  ghost predicate IsRun(states: seq<Rows>, ops: seq<Op>) {
    |states| == |ops| + 1 && states[0] == map[] && forall k :: 0 <= k < |ops| ==> Does(states[k], ops[k], states[k + 1])
  }

  lemma OpKeepsDistinct(before: Rows, op: Op, after: Rows)
    requires DistinctTitles(before) && Does(before, op, after)
    ensures DistinctTitles(after)
  {
    if op.CreateOp? {
      var t :| IsUniqueTitle(before, op.user, op.title, t)
               && after == if |t| > TITLE_LENGTH then before else before[op.id := Row(op.user, t, op.now, false)];
      forall j | j in before && before[j].user == op.user && !before[j].deleted
        ensures before[j].title != t
      {
        assert j !in Titled(before, op.user, t);
      }
    }
  }

  /** In every serial run of creates and soft deletes, a user's visible titles stay distinct. */
  lemma {:induction false} TitlesStayDistinct(states: seq<Rows>, ops: seq<Op>, k: nat)
    requires IsRun(states, ops) && k <= |ops|
    ensures DistinctTitles(states[k])
  {
    if k > 0 {
      TitlesStayDistinct(states, ops, k - 1);
      OpKeepsDistinct(states[k - 1], ops[k - 1], states[k]);
    }
  }

  /** A title near the column's length can be created once only. */
  lemma LongTitleCannotRepeat(rows: Rows, user: nat, title: string, t: string)
    requires !Free(rows, user, title) && |title| > 96 && IsUniqueTitle(rows, user, title, t)
    ensures |t| > TITLE_LENGTH
  {
  }

  // ---- paging --------------------------------------------------------------------------------

  /** A conversation as it is listed. */
  datatype Entry = Entry(id: nat, at: int)

  predicate Descending(es: seq<Entry>) {
    forall i, j :: 0 <= i < j < |es| ==> es[i].at >= es[j].at
  }

  /** The user's visible conversations, newest first. */
  ghost predicate IsView(rows: Rows, user: nat, view: seq<Entry>) {
    && Descending(view)
    && (forall i, j :: 0 <= i < j < |view| ==> view[i].id != view[j].id)
    && (forall k :: 0 <= k < |view|
          ==> view[k].id in VisibleIds(rows, user) && view[k].at == rows[view[k].id].lastAccessed)
    && (forall id :: id in VisibleIds(rows, user) ==> exists k :: 0 <= k < |view| && view[k].id == id)
  }

  /** last_accessed < cursor */
  function Below(es: seq<Entry>, cursor: int): seq<Entry> {
    if es == [] then []
    else (if es[0].at < cursor then [es[0]] else []) + Below(es[1..], cursor)
  }

  datatype Listing = Page(entries: seq<Entry>, next: Option<int>) | Fails

  function Filtered(view: seq<Entry>, cursor: Option<int>): seq<Entry> {
    if cursor.Some? then Below(view, cursor.value) else view
  }

  /**
    list_conversations on the ordered view.  A limit below -1 is refused by the database; with a
    limit of 0 or -1 the code may take the last row of an empty list.
  */
  method ListConversations(view: seq<Entry>, cursor: Option<int>, limit: int) returns (r: Listing)
    ensures r.Fails? <==> limit < 0 || (limit == 0 && Filtered(view, cursor) != [])
    ensures r.Page? ==> r.entries <= Filtered(view, cursor) && |r.entries| <= limit
    ensures r.Page? && r.next.None? ==> r.entries == Filtered(view, cursor)
    ensures r.Page? && r.next.Some? ==>
              |r.entries| == limit < |Filtered(view, cursor)| && r.next.value == r.entries[limit - 1].at
  {
    if limit + 1 < 0 {
      return Fails;
    }
    var rows := Filtered(view, cursor);
    rows := if |rows| > limit + 1 then rows[..limit + 1] else rows;
    if |rows| > limit {
      rows := if limit >= 0 then rows[..limit] else [];
      if rows == [] {
        return Fails;
      }
      return Page(rows, Some(rows[|rows| - 1].at));
    }
    return Page(rows, None);
  }

  /** The position of the first entry below the cursor. */
  function Later(es: seq<Entry>, cursor: int): (j: nat)
    ensures j <= |es| && (j < |es| ==> es[j].at < cursor) && forall i :: 0 <= i < j ==> es[i].at >= cursor
  {
    if es == [] || es[0].at < cursor then 0 else 1 + Later(es[1..], cursor)
  }

  lemma {:induction false} BelowEverything(es: seq<Entry>, cursor: int)
    requires forall k :: 0 <= k < |es| ==> es[k].at < cursor
    ensures Below(es, cursor) == es
  {
    if es != [] {
      BelowEverything(es[1..], cursor);
    }
  }

  /** On an ordered list the filter leaves the end of it. */
  lemma {:induction false} BelowIsLater(es: seq<Entry>, cursor: int)
    requires Descending(es)
    ensures Below(es, cursor) == es[Later(es, cursor)..]
  {
    if es != [] {
      if es[0].at < cursor {
        BelowEverything(es, cursor);
      } else {
        BelowIsLater(es[1..], cursor);
      }
    }
  }

  /** The pages that next_cursor leads through, from what is left of the view. */
  function Pages(rest: seq<Entry>, limit: nat): seq<seq<Entry>>
    requires limit > 0 && Descending(rest)
    decreases |rest|
  {
    if |rest| <= limit then [rest]
    else
      BelowIsLater(rest, rest[limit - 1].at);
      [rest[..limit]] + Pages(Below(rest, rest[limit - 1].at), limit)
  }

  /** A later request filters what an earlier one saw. */
  lemma {:induction false} CursorsCompose(view: seq<Entry>, c: int, d: int)
    requires d <= c
    ensures Below(view, d) == Below(Below(view, c), d)
  {
    if view != [] {
      CursorsCompose(view[1..], c, d);
      if view[0].at < c {
        assert Below(view, c) == [view[0]] + Below(view[1..], c);
        assert Below(view, c)[1..] == Below(view[1..], c);
      } else {
        assert Below(view, c) == Below(view[1..], c);
      }
    }
  }

  lemma BelowStaysBelow(view: seq<Entry>, cursor: int)
    requires Descending(view)
    ensures Descending(Below(view, cursor)) && forall k :: 0 <= k < |Below(view, cursor)|
                                                 ==> Below(view, cursor)[k].at < cursor
  {
    BelowIsLater(view, cursor);
  }

  /** What the next request sees, and what it leaves to page through. */
  lemma NextRequest(view: seq<Entry>, cursor: Option<int>, limit: nat)
    requires limit > 0 && Descending(view) && limit < |Filtered(view, cursor)|
    ensures var rest := Filtered(view, cursor); var next := Below(view, rest[limit - 1].at);
      && Descending(rest) && Descending(next) && |next| < |rest|
      && Pages(rest, limit) == [rest[..limit]] + Pages(next, limit)
  {
    var rest := Filtered(view, cursor);
    if cursor.Some? {
      BelowStaysBelow(view, cursor.value);
      CursorsCompose(view, cursor.value, rest[limit - 1].at);
    }
    BelowStaysBelow(rest, rest[limit - 1].at);
    BelowIsLater(rest, rest[limit - 1].at);
  }

  /** A client that follows next_cursor from the start until there is none. */
  method FollowCursor(view: seq<Entry>, limit: nat) returns (pages: seq<seq<Entry>>)
    requires limit > 0 && Descending(view)
    ensures pages == Pages(view, limit)
  {
    pages := [];
    var cursor: Option<int> := None;
    while true
      invariant Descending(Filtered(view, cursor))
      invariant pages + Pages(Filtered(view, cursor), limit) == Pages(view, limit)
      decreases |Filtered(view, cursor)|
    {
      var r := ListConversations(view, cursor, limit);
      pages := pages + [r.entries];
      if r.next.None? {
        return;
      }
      NextRequest(view, cursor, limit);
      assert r.entries == Filtered(view, cursor)[..limit];
      cursor := r.next;
    }
  }

  function Flat(pages: seq<seq<Entry>>): seq<Entry> {
    if pages == [] then [] else pages[0] + Flat(pages[1..])
  }

  /** No two entries with the same time stand on both sides of a page boundary. */
  predicate NoBoundaryTie(es: seq<Entry>, limit: nat)
    requires limit > 0
    decreases |es|
  {
    |es| <= limit || (es[limit - 1].at != es[limit].at && NoBoundaryTie(es[limit..], limit))
  }

  lemma OnePage(rest: seq<Entry>, limit: nat)
    requires limit > 0 && Descending(rest) && |rest| <= limit
    ensures Flat(Pages(rest, limit)) == rest
  {
    assert [rest][1..] == [];
    assert rest + [] == rest;
  }

  lemma FirstPage(rest: seq<Entry>, limit: nat)
    requires limit > 0 && Descending(rest) && limit < |rest|
    ensures var b := Below(rest, rest[limit - 1].at);
      && Descending(b) && |b| <= |rest| - limit
      && Flat(Pages(rest, limit)) == rest[..limit] + Flat(Pages(b, limit))
      && |Pages(rest, limit)| == 1 + |Pages(b, limit)|
      && (rest[limit - 1].at != rest[limit].at ==> b == rest[limit..])
      && (rest[limit - 1].at == rest[limit].at ==> |b| < |rest| - limit)
  {
    var b := Below(rest, rest[limit - 1].at);
    BelowIsLater(rest, rest[limit - 1].at);
    BelowStaysBelow(rest, rest[limit - 1].at);
    assert Pages(rest, limit)[1..] == Pages(b, limit);
  }

  lemma {:induction false} PagesNeverAdd(rest: seq<Entry>, limit: nat)
    requires limit > 0 && Descending(rest)
    ensures |Flat(Pages(rest, limit))| <= |rest|
    decreases |rest|
  {
    if |rest| > limit {
      FirstPage(rest, limit);
      PagesNeverAdd(Below(rest, rest[limit - 1].at), limit);
    } else {
      OnePage(rest, limit);
    }
  }

  /**
    Following the cursor yields every visible conversation once, newest first, if and only if no
    tie of last_accessed straddles a page boundary.
  */
  lemma {:induction false} PagingIsCompleteIff(rest: seq<Entry>, limit: nat)
    requires limit > 0 && Descending(rest)
    ensures Flat(Pages(rest, limit)) == rest <==> NoBoundaryTie(rest, limit)
    decreases |rest|
  {
    if |rest| <= limit {
      OnePage(rest, limit);
    } else {
      FirstPage(rest, limit);
      if rest[limit - 1].at != rest[limit].at {
        PagingIsCompleteIff(rest[limit..], limit);
        SamePrefix(rest[..limit], rest[limit..], Flat(Pages(rest[limit..], limit)));
        assert rest == rest[..limit] + rest[limit..];
      } else {
        PagesNeverAdd(Below(rest, rest[limit - 1].at), limit);
      }
    }
  }

  lemma SamePrefix(a: seq<Entry>, b: seq<Entry>, c: seq<Entry>)
    ensures a + b == a + c <==> b == c
  {
    if a + b == a + c {
      assert (a + b)[|a|..] == b && (a + c)[|a|..] == c;
    }
  }

  /** Distinct times have no ties anywhere. */
  lemma {:induction false} DistinctTimesHaveNoTie(es: seq<Entry>, limit: nat)
    requires limit > 0 && forall i, j :: 0 <= i < j < |es| ==> es[i].at != es[j].at
    ensures NoBoundaryTie(es, limit)
    decreases |es|
  {
    if |es| > limit {
      DistinctTimesHaveNoTie(es[limit..], limit);
    }
  }

  /** k is the number n / limit rounded up. */
  predicate IsCeiling(k: nat, n: nat, limit: nat) {
    limit * k - limit < n <= limit * k
  }

  /** Without boundary ties there are max(1, ceil(n / limit)) pages. */
  lemma {:induction false} PageCount(rest: seq<Entry>, limit: nat)
    requires limit > 0 && Descending(rest) && NoBoundaryTie(rest, limit)
    ensures if rest == [] then |Pages(rest, limit)| == 1 else IsCeiling(|Pages(rest, limit)|, |rest|, limit)
    decreases |rest|
  {
    if |rest| > limit {
      FirstPage(rest, limit);
      PageCount(rest[limit..], limit);
      var k := |Pages(rest[limit..], limit)|;
      assert limit * (k + 1) == limit * k + limit;
    }
  }

  lemma {:induction false} ViewOf(rows: Rows, ids: set<nat>) returns (view: seq<Entry>)
    requires ids <= rows.Keys
    ensures Descending(view) && |view| == |ids|
    ensures forall i, j :: 0 <= i < j < |view| ==> view[i].id != view[j].id
    ensures forall k :: 0 <= k < |view| ==> view[k].id in ids && view[k].at == rows[view[k].id].lastAccessed
    ensures forall id :: id in ids ==> exists k :: 0 <= k < |view| && view[k].id == id
    decreases ids
  {
    if ids == {} {
      view := [];
    } else {
      var oldest := Oldest(rows, ids);
      var newer := ViewOf(rows, ids - {oldest});
      view := newer + [Entry(oldest, rows[oldest].lastAccessed)];
      assert view[|newer|].id == oldest;
      forall id | id in ids
        ensures exists k :: 0 <= k < |view| && view[k].id == id
      {
        if id != oldest {
          assert id in ids - {oldest};
          var k :| 0 <= k < |newer| && newer[k].id == id;
          assert view[k].id == id;
        }
      }
    }
  }

  /** Every table has such a view, so the statements above are about every user. */
  lemma EveryUserHasAView(rows: Rows, user: nat)
    ensures exists view :: IsView(rows, user, view)
  {
    var view := ViewOf(rows, VisibleIds(rows, user));
    assert IsView(rows, user, view);
  }

  lemma {:induction false} Oldest(rows: Rows, ids: set<nat>) returns (id: nat)
    requires ids != {} && ids <= rows.Keys
    ensures id in ids && forall x :: x in ids ==> rows[id].lastAccessed <= rows[x].lastAccessed
    decreases ids
  {
    id :| id in ids;
    if ids != {id} {
      var other := Oldest(rows, ids - {id});
      if rows[other].lastAccessed < rows[id].lastAccessed {
        id := other;
      }
    }
  }

  /**
    Paging a user's conversations with distinct times: each visible one exactly once, newest first,
    in max(1, ceil(n / limit)) pages.
  */
  lemma {:induction false} PagingRefinesTheSortedList(rows: Rows, user: nat, view: seq<Entry>, limit: nat)
    requires limit > 0 && IsView(rows, user, view)
    requires forall i, j :: i in VisibleIds(rows, user) && j in VisibleIds(rows, user) && i != j
               ==> rows[i].lastAccessed != rows[j].lastAccessed
    ensures Flat(Pages(view, limit)) == view
    ensures if view == [] then |Pages(view, limit)| == 1 else IsCeiling(|Pages(view, limit)|, |view|, limit)
  {
    DistinctTimesHaveNoTie(view, limit);
    PagingIsCompleteIff(view, limit);
    PageCount(view, limit);
  }
}
