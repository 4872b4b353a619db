/**
 * What the repository's queries return: the latest run of a document, the
 * status filter, pages of documents, and lists of runs.
 *
 * SQL leaves the order of rows with equal sort keys open, so an ordered result
 * is any sequence that satisfies the ORDER BY; the results below hold for each.
 */
module RepositoryListing {
  import opened Wrappers
  import opened Sequences
  import opened Text
  import opened JobModels
  import opened JobRepository

  // --------------------------------------------------------------- latest run

  /** SELECT * FROM ingestion_runs WHERE document_id = ? ORDER BY attempt_number DESC */
  ghost predicate RunRows(t: Tables, documentId: string, rows: seq<Run>) {
    && Distinct(rows)
    && (forall run :: run in rows ==>
          run.runId in t.runs && t.runs[run.runId] == run && run.documentId == documentId)
    && (forall r :: r in t.runs && t.runs[r].documentId == documentId ==> t.runs[r] in rows)
    && (forall i, j :: 0 <= i < j < |rows| ==> rows[i].attempt >= rows[j].attempt)
  }

  function LatestRun(rows: seq<Run>): Option<Run> {
    if rows == [] then None else Some(rows[0])
  }

  /** latest_run is the run of the greatest attempt number, strictly ahead of the others. */
  lemma LatestIsGreatest(t: Tables, documentId: string, rows: seq<Run>)
    requires Inv(t) && RunRows(t, documentId, rows)
    ensures rows == [] <==> Attempts(t.runs, documentId) == {}
    ensures rows != [] ==>
              && LatestRun(rows).value.attempt == Greatest(Attempts(t.runs, documentId))
              && NextAttempt(t.runs, documentId) == LatestRun(rows).value.attempt + 1
              && forall r :: r in t.runs && t.runs[r].documentId == documentId && t.runs[r] != rows[0] ==>
                   t.runs[r].attempt < rows[0].attempt
  {
    var attempts := Attempts(t.runs, documentId);
    if rows == [] {
      assert forall r :: r in t.runs ==> t.runs[r].documentId != documentId;
    } else {
      assert rows[0] in rows;
      assert rows[0].attempt in attempts;
      forall r | r in t.runs && t.runs[r].documentId == documentId
        ensures t.runs[r].attempt <= rows[0].attempt
        ensures t.runs[r] != rows[0] ==> t.runs[r].attempt < rows[0].attempt
      {
        assert t.runs[r] in rows;
        var i :| 0 <= i < |rows| && rows[i] == t.runs[r];
      }
      assert forall a :: a in attempts ==> a <= rows[0].attempt;
    }
  }

  /** SELECT MAX(attempt_number); on no rows it is NULL, which equals nothing. */
  predicate IsMaxAttempt(runs: map<string, Run>, documentId: string, attempt: int) {
    Attempts(runs, documentId) != {} && attempt == Greatest(Attempts(runs, documentId))
  }

  /** The correlated subquery of list_documents: EXISTS a run with the status and the MAX attempt. */
  ghost predicate StatusFilter(t: Tables, documentId: string, status: JobStatus) {
    exists r :: r in t.runs && t.runs[r].documentId == documentId
                && t.runs[r].snapshot.status == status
                && IsMaxAttempt(t.runs, documentId, t.runs[r].attempt)
  }

  /** The filter selects exactly the documents whose envelope shows that status as the latest run's. */
  lemma StatusFilterExact(t: Tables, documentId: string, rows: seq<Run>, status: JobStatus)
    requires Inv(t) && RunRows(t, documentId, rows)
    ensures StatusFilter(t, documentId, status)
            <==> LatestRun(rows).Some? && LatestRun(rows).value.snapshot.status == status
  {
    LatestIsGreatest(t, documentId, rows);
    if rows != [] {
      assert rows[0] in rows;
      assert t.runs[rows[0].runId] == rows[0];
      assert IsMaxAttempt(t.runs, documentId, rows[0].attempt);
    }
  }

  /** The job of the latest run has the status that the run shows. */
  lemma LatestJob(t: Tables, documentId: string, rows: seq<Run>)
    requires Inv(t) && RunRows(t, documentId, rows) && LatestRun(rows).Some?
    ensures var run := LatestRun(rows).value;
            run.jobId in t.jobs && t.jobs[run.jobId].status == run.snapshot.status
  {
    assert rows[0] in rows;
    assert t.runs[rows[0].runId] == rows[0];
    assert Agrees(rows[0], t.jobs[rows[0].runId]);
  }

  // -------------------------------------------------------------------- pages

  datatype Page<T> = Page(rows: seq<T>, nextCursor: Option<string>, total: nat)

  /** A missing or unreadable cursor means the beginning, a negative one as well. */
  function CursorOffset(cursor: Option<string>): nat {
    if cursor.None? then 0
    else
      var n := ParseInt(cursor.value);
      if n.None? then 0 else Max(0, n.value)
  }

  function ClampedLimit(limit: int): (b: nat)
    ensures 1 <= b <= 100
  {
    Max(1, Min(limit, 100))
  }

  /** LIMIT n OFFSET k on an ordered result. */
  function Slice<T>(listing: seq<T>, offset: nat, n: nat): seq<T> {
    if |listing| <= offset then []
    else listing[offset..Min(offset + n, |listing|)]
  }

  /** One row more than the page is fetched to see whether there is a next page. */
  function PageAt<T>(listing: seq<T>, limit: int, offset: nat): Page<T> {
    var bounded := ClampedLimit(limit);
    var rows := Slice(listing, offset, bounded + 1);
    Page(if |rows| > bounded then rows[..bounded] else rows,
         if |rows| > bounded then Some(Print(offset + bounded)) else None,
         |listing|)
  }

  function ListPage<T>(listing: seq<T>, limit: int, cursor: Option<string>): Page<T> {
    PageAt(listing, limit, CursorOffset(cursor))
  }

  lemma CursorRoundTrip(n: nat)
    ensures CursorOffset(Some(Print(n))) == n
  {
    ParsePrint(n);
  }

  lemma NextCursor<T>(listing: seq<T>, limit: int, offset: nat)
    requires PageAt(listing, limit, offset).nextCursor.Some?
    ensures CursorOffset(PageAt(listing, limit, offset).nextCursor) == offset + ClampedLimit(limit) < |listing|
  {
    CursorRoundTrip(offset + ClampedLimit(limit));
  }

  /** The pages a client sees that follows next_cursor to the end. */
  function Follow<T>(listing: seq<T>, limit: int, cursor: Option<string>): seq<Page<T>>
    decreases Max(0, |listing| - CursorOffset(cursor))
  {
    var page := ListPage(listing, limit, cursor);
    if page.nextCursor.None? then [page]
    else
      NextCursor(listing, limit, CursorOffset(cursor));
      [page] + Follow(listing, limit, page.nextCursor)
  }

  /** The same pages by offset, without the printing and parsing of cursors. */
  function PagesFrom<T>(listing: seq<T>, limit: int, offset: nat): seq<Page<T>>
    decreases Max(0, |listing| - offset)
  {
    var page := PageAt(listing, limit, offset);
    if page.nextCursor.None? then [page]
    else [page] + PagesFrom(listing, limit, offset + ClampedLimit(limit))
  }

  lemma {:induction false} FollowIsPagesFrom<T>(listing: seq<T>, limit: int, cursor: Option<string>)
    ensures Follow(listing, limit, cursor) == PagesFrom(listing, limit, CursorOffset(cursor))
    decreases Max(0, |listing| - CursorOffset(cursor))
  {
    var page := ListPage(listing, limit, cursor);
    if page.nextCursor.Some? {
      NextCursor(listing, limit, CursorOffset(cursor));
      FollowIsPagesFrom(listing, limit, page.nextCursor);
    }
  }

  function RowsOf<T>(pages: seq<Page<T>>): seq<T> {
    if pages == [] then [] else pages[0].rows + RowsOf(pages[1..])
  }

  lemma PageShape<T>(listing: seq<T>, limit: int, offset: nat)
    requires offset <= |listing|
    ensures var page, b := PageAt(listing, limit, offset), ClampedLimit(limit);
            && (page.nextCursor.None? <==> |listing| - offset <= b)
            && page.rows == listing[offset..if page.nextCursor.None? then |listing| else offset + b]
  {
  }

  lemma RowsOfCons<T>(page: Page<T>, rest: seq<Page<T>>)
    ensures RowsOf([page] + rest) == page.rows + RowsOf(rest)
  {
    assert ([page] + rest)[1..] == rest;
  }

  lemma SliceJoin<T>(listing: seq<T>, i: nat, j: nat)
    requires i <= j <= |listing|
    ensures listing[i..j] + listing[j..] == listing[i..]
  {
  }

  lemma {:induction false} PagesCover<T>(listing: seq<T>, limit: int, offset: nat)
    requires offset <= |listing|
    ensures RowsOf(PagesFrom(listing, limit, offset)) == listing[offset..]
    decreases |listing| - offset
  {
    var b := ClampedLimit(limit);
    var page := PageAt(listing, limit, offset);
    PageShape(listing, limit, offset);
    if page.nextCursor.None? {
      RowsOfCons(page, []);
      assert [page] + [] == [page];
    } else {
      var rest := PagesFrom(listing, limit, offset + b);
      PagesCover(listing, limit, offset + b);
      RowsOfCons(page, rest);
      SliceJoin(listing, offset, offset + b);
    }
  }

  lemma {:induction false} PagesCount<T>(listing: seq<T>, limit: int, offset: nat)
    requires offset <= |listing|
    ensures var k, b := |PagesFrom(listing, limit, offset)|, ClampedLimit(limit);
            1 <= k && |listing| - offset <= k * b && (k == 1 || (k - 1) * b < |listing| - offset)
    decreases |listing| - offset
  {
    var b := ClampedLimit(limit);
    PageShape(listing, limit, offset);
    if PageAt(listing, limit, offset).nextCursor.Some? {
      PagesCount(listing, limit, offset + b);
      var rest := |PagesFrom(listing, limit, offset + b)|;
      Distribute(rest, b);
      Distribute(rest - 1, b);
    }
  }

  lemma Distribute(k: int, b: int)
    ensures (k + 1) * b == k * b + b
  {
  }

  /**
   * Following the cursors from none over unchanged tables shows every matching
   * document exactly once, in listing order, and takes max(1, ceil(total / b))
   * pages for the clamped limit b.
   */
  lemma PagingVisitsEachOnce<T>(listing: seq<T>, limit: int)
    ensures RowsOf(Follow(listing, limit, None)) == listing
    ensures var k, b := |Follow(listing, limit, None)|, ClampedLimit(limit);
            1 <= k && |listing| <= k * b && (k == 1 || (k - 1) * b < |listing|)
  {
    hide *;
    FollowIsPagesFrom(listing, limit, None);
    assert CursorOffset(None) == 0 by { FirstOffset(); }
    PagesCover(listing, limit, 0);
    assert listing[0..] == listing;
    PagesCount(listing, limit, 0);
  }

  lemma FirstOffset()
    ensures CursorOffset(None) == 0
  {
  }

  // ---------------------------------------------------------------- documents

  /** The WHERE clause: the LIKE pattern, if any, and the status filter, if any. */
  ghost predicate Matches(t: Tables, likes: Document -> bool, status: Option<JobStatus>, hash: string) {
    && hash in t.documents
    && likes(t.documents[hash])
    && (status.Some? ==> StatusFilter(t, t.documents[hash].documentId, status.value))
  }

  ghost function MatchingHashes(t: Tables, likes: Document -> bool, status: Option<JobStatus>): set<string> {
    set h | h in t.documents && Matches(t, likes, status, h)
  }

  ghost predicate Descending(rows: seq<Document>) {
    forall i, j :: 0 <= i < j < |rows| ==> rows[i].updatedAt >= rows[j].updatedAt
  }

  /** SELECT d.* FROM ingestion_documents d WHERE .. ORDER BY d.updated_at DESC */
  ghost predicate DocumentRows(t: Tables, likes: Document -> bool, status: Option<JobStatus>, rows: seq<Document>) {
    && Distinct(rows) && Descending(rows)
    && (forall d :: d in rows ==> Matches(t, likes, status, d.contentHash) && t.documents[d.contentHash] == d)
    && (forall h :: Matches(t, likes, status, h) ==> t.documents[h] in rows)
  }

  lemma {:induction false} RowsOfSet(t: Tables, hashes: set<string>) returns (rows: seq<Document>)
    requires KeyedRows(t) && hashes <= t.documents.Keys
    ensures Distinct(rows) && Descending(rows)
    ensures forall d :: d in rows ==> d.contentHash in hashes && t.documents[d.contentHash] == d
    ensures forall h :: h in hashes ==> t.documents[h] in rows
    decreases |hashes|
  {
    if hashes == {} {
      rows := [];
    } else {
      var top := Newest(t, hashes);
      var rest := RowsOfSet(t, hashes - {top});
      rows := [t.documents[top]] + rest;
      assert forall k :: 0 <= k < |rest| ==> rest[k] in rest;
    }
  }

  lemma {:induction false} Newest(t: Tables, hashes: set<string>) returns (top: string)
    requires hashes <= t.documents.Keys && hashes != {}
    ensures top in hashes && forall h :: h in hashes ==> t.documents[h].updatedAt <= t.documents[top].updatedAt
    decreases |hashes|
  {
    var some := Member(hashes);
    if hashes == {some} {
      top := some;
    } else {
      var rest := hashes - {some};
      assert rest != {};
      var best := Newest(t, rest);
      top := if t.documents[best].updatedAt >= t.documents[some].updatedAt then best else some;
      forall h | h in hashes
        ensures t.documents[h].updatedAt <= t.documents[top].updatedAt
      {
        assert h == some || h in rest;
      }
    }
  }

  /** Every query has an answer. */
  lemma DocumentRowsExist(t: Tables, likes: Document -> bool, status: Option<JobStatus>)
    requires KeyedRows(t)
    ensures exists rows :: DocumentRows(t, likes, status, rows)
  {
    var rows := RowsOfSet(t, MatchingHashes(t, likes, status));
    assert DocumentRows(t, likes, status, rows);
  }

  lemma RowCountExact(t: Tables, likes: Document -> bool, status: Option<JobStatus>, rows: seq<Document>)
    requires KeyedRows(t) && DocumentRows(t, likes, status, rows)
    ensures |rows| == |MatchingHashes(t, likes, status)|
  {
    var hashes := seq(|rows|, i requires 0 <= i < |rows| => rows[i].contentHash);
    forall i, j | 0 <= i < j < |rows|
      ensures hashes[i] != hashes[j]
    {
      assert rows[i] in rows && rows[j] in rows;
    }
    DistinctCardinality(hashes);
    forall h
      ensures h in Elements(hashes) <==> h in MatchingHashes(t, likes, status)
    {
      if h in MatchingHashes(t, likes, status) {
        var k :| 0 <= k < |rows| && rows[k] == t.documents[h];
        assert hashes[k] == h;
      }
      if h in hashes {
        var k :| 0 <= k < |hashes| && hashes[k] == h;
        assert rows[k] in rows;
      }
    }
    assert Elements(hashes) == MatchingHashes(t, likes, status);
  }

  lemma {:induction false} EveryTotal<T>(listing: seq<T>, limit: int, cursor: Option<string>)
    ensures forall p :: p in Follow(listing, limit, cursor) ==> p.total == |listing|
    decreases Max(0, |listing| - CursorOffset(cursor))
  {
    var page := ListPage(listing, limit, cursor);
    if page.nextCursor.Some? {
      NextCursor(listing, limit, CursorOffset(cursor));
      EveryTotal(listing, limit, page.nextCursor);
    }
  }

  /**
   * list_documents as a whole: over unchanged tables, with any LIKE pattern and status,
   * following the cursors shows each document that matches exactly once and no
   * other, the most recently updated first across all pages; a status matches just
   * the documents whose latest run has it; and every page gives their number as its total.
   */
  lemma DocumentsPaged(t: Tables, likes: Document -> bool, status: Option<JobStatus>, rows: seq<Document>, limit: int)
    requires Inv(t) && DocumentRows(t, likes, status, rows)
    ensures var pages := Follow(rows, limit, None);
            var shown := RowsOf(pages);
            && Distinct(shown) && Descending(shown)
            && (forall h :: h in t.documents ==> (t.documents[h] in shown <==> Matches(t, likes, status, h)))
            && (forall d :: d in shown ==> d.contentHash in t.documents && t.documents[d.contentHash] == d)
            && (forall p :: p in pages ==> p.total == |MatchingHashes(t, likes, status)|)
            && (forall d, runs :: d in shown && RunRows(t, d.documentId, runs) && status.Some? ==>
                  && LatestRun(runs).Some? && LatestRun(runs).value.snapshot.status == status.value
                  && LatestRun(runs).value.jobId in t.jobs
                  && t.jobs[LatestRun(runs).value.jobId].status == status.value)
  {
    PagingVisitsEachOnce(rows, limit);
    EveryTotal(rows, limit, None);
    RowCountExact(t, likes, status, rows);
    hide Follow, RowsOf, StatusFilter, LatestRun, RunRows;
    forall d, runs | d in rows && RunRows(t, d.documentId, runs) && status.Some?
      ensures LatestRun(runs).Some? && LatestRun(runs).value.snapshot.status == status.value
      ensures LatestRun(runs).value.jobId in t.jobs && t.jobs[LatestRun(runs).value.jobId].status == status.value
    {
      StatusFilterExact(t, d.documentId, runs, status.value);
      LatestJob(t, d.documentId, runs);
    }
    forall h | h in t.documents && t.documents[h] in rows
      ensures Matches(t, likes, status, h)
    {
      assert t.documents[h].contentHash == h;
    }
  }

  // ---------------------------------------------------------------- list_runs

  function Existing(runs: map<string, Run>, ids: seq<string>): seq<Run> {
    if ids == [] then []
    else (if ids[0] in runs then [runs[ids[0]]] else []) + Existing(runs, ids[1..])
  }

  function ListRuns(runs: map<string, Run>, ids: seq<string>): seq<Run> {
    Existing(runs, Dedup(ids))
  }

  lemma {:induction false} ExistingMember(runs: map<string, Run>, ids: seq<string>, run: Run)
    ensures run in Existing(runs, ids) <==> exists i :: 0 <= i < |ids| && ids[i] in runs && runs[ids[i]] == run
  {
    if ids != [] {
      var rest := ids[1..];
      ExistingMember(runs, rest, run);
      if i :| 0 <= i < |ids| && ids[i] in runs && runs[ids[i]] == run {
        assert i == 0 || rest[i - 1] == ids[i];
      }
      if i :| 0 <= i < |rest| && rest[i] in runs && runs[rest[i]] == run {
        assert ids[i + 1] == rest[i];
      }
    }
  }

  lemma {:induction false} ExistingOrder(t: Tables, ids: seq<string>, i: nat, j: nat)
    requires KeyedRows(t) && Distinct(ids) && i < j < |Existing(t.runs, ids)|
    ensures exists a, b :: 0 <= a < b < |ids| && ids[a] == Existing(t.runs, ids)[i].runId
                                         && ids[b] == Existing(t.runs, ids)[j].runId
  {
    var rows, rest := Existing(t.runs, ids), Existing(t.runs, ids[1..]);
    var shift := if ids[0] in t.runs then 1 else 0;
    assert rows[j] == rest[j - shift];
    if shift <= i {
      assert rows[i] == rest[i - shift];
      ExistingOrder(t, ids[1..], i - shift, j - shift);
      var a, b :| 0 <= a < b < |ids[1..]| && ids[1..][a] == rows[i].runId && ids[1..][b] == rows[j].runId;
      assert ids[a + 1] == rows[i].runId && ids[b + 1] == rows[j].runId;
    } else {
      ExistingMember(t.runs, ids[1..], rows[j]);
      var b :| 0 <= b < |ids[1..]| && ids[1..][b] in t.runs && t.runs[ids[1..][b]] == rows[j];
      assert ids[0] == rows[i].runId && ids[b + 1] == rows[j].runId;
    }
  }

  /** Each requested run that exists is listed exactly once, in the order it was first asked for. */
  lemma ListRunsLaw(t: Tables, ids: seq<string>)
    requires KeyedRows(t)
    ensures forall r :: r in t.runs ==> (t.runs[r] in ListRuns(t.runs, ids) <==> r in ids)
    ensures forall i, j :: 0 <= i < j < |ListRuns(t.runs, ids)| ==>
              && ListRuns(t.runs, ids)[i] != ListRuns(t.runs, ids)[j]
              && Before(ids, ListRuns(t.runs, ids)[i].runId, ListRuns(t.runs, ids)[j].runId)
  {
    var asked := Dedup(ids);
    var rows := ListRuns(t.runs, ids);
    DedupDistinct(ids);
    forall r | r in t.runs
      ensures t.runs[r] in rows <==> r in ids
    {
      ExistingMember(t.runs, asked, t.runs[r]);
      DedupMember(ids, r);
      if t.runs[r] in rows {
        var i :| 0 <= i < |asked| && asked[i] in t.runs && t.runs[asked[i]] == t.runs[r];
        assert asked[i] == r;
      }
    }
    forall i, j | 0 <= i < j < |rows|
      ensures rows[i] != rows[j] && Before(ids, rows[i].runId, rows[j].runId)
    {
      ExistingOrder(t, asked, i, j);
      var a, b :| 0 <= a < b < |asked| && asked[a] == rows[i].runId && asked[b] == rows[j].runId;
      DedupOrder(ids, a, b);
    }
  }

  /** The page limit is kept between 1 and 100. */
  lemma LimitLaw(limit: int)
    ensures limit < 1 ==> ClampedLimit(limit) == 1
    ensures 1 <= limit <= 100 ==> ClampedLimit(limit) == limit
    ensures 100 < limit ==> ClampedLimit(limit) == 100
  {
  }

  /** A cursor that is missing, unreadable or negative means the beginning. */
  lemma CursorLaw(text: string)
    ensures CursorOffset(None) == 0
    ensures ParseInt(text).None? ==> CursorOffset(Some(text)) == 0
    ensures ParseInt(text).Some? && ParseInt(text).value < 0 ==> CursorOffset(Some(text)) == 0
    ensures ParseInt(text).Some? && 0 <= ParseInt(text).value ==> CursorOffset(Some(text)) == ParseInt(text).value
  {
  }

  /** One page: the rows from the cursor on, up to the limit, and the next cursor iff there are more. */
  lemma PageLaw<T>(listing: seq<T>, limit: int, cursor: Option<string>)
    ensures var (page, from, b) := (ListPage(listing, limit, cursor), CursorOffset(cursor), ClampedLimit(limit));
            && page.total == |listing|
            && |page.rows| == Max(0, Min(b, |listing| - from))
            && (forall i :: 0 <= i < |page.rows| ==> page.rows[i] == listing[from + i])
            && (page.nextCursor.Some? <==> from + b < |listing|)
            && (page.nextCursor.Some? ==> page.nextCursor == Some(Print(from + b)))
  {
  }
}
