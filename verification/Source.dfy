/**
 The database side: a strictly ordered source, the collector's contract for one page, and what a
 chain of pages returns. The sink side: which rows a log of acknowledgments has delivered.
 */
module Source {
  import opened Wrappers
  import opened Cursors

  datatype Row = Row(cursor: Cursor, line: Bytes)

  ghost predicate Sorted(source: seq<Row>) {
    forall i, j :: 0 <= i < j < |source| ==> Before(source[i].cursor, source[j].cursor)
  }

  /** How many leading rows a bound leaves out. */
  function Skip(source: seq<Row>, bound: Option<Bound>): (n: nat)
    ensures n <= |source|
  {
    if source == [] then 0
    else
      var n := |source| - 1;
      if Admits(bound, source[n].cursor) then Skip(source[..n], bound) else |source|
  }

  /** How many leading rows lie at or before a cursor. */
  function Through(source: seq<Row>, c: Option<Cursor>): (n: nat)
    ensures n <= |source|
  {
    if c.None? then 0 else Skip(source, Some(Bound(c.value, false)))
  }

  /** In a sorted source the rows a bound admits are exactly those from `Skip` on. */
  lemma {:induction false} SkipSplits(source: seq<Row>, bound: Option<Bound>)
    requires Sorted(source)
    ensures forall i :: 0 <= i < |source| ==> (Admits(bound, source[i].cursor) <==> Skip(source, bound) <= i)
  {
    if source != [] {
      var n := |source| - 1;
      SkipSplits(source[..n], bound);
      assert forall i :: 0 <= i < n ==> source[..n][i] == source[i];
      if !Admits(bound, source[n].cursor) {
        forall i | 0 <= i < n
          ensures !Admits(bound, source[i].cursor)
        {
          if Admits(bound, source[i].cursor) {
            AdmitsIsUpwardClosed(bound, source[i].cursor, source[n].cursor);
          }
        }
      }
    }
  }

  /** `n` is the only index that splits the source at a bound. */
  lemma SkipIs(source: seq<Row>, bound: Option<Bound>, n: nat)
    requires Sorted(source) && n <= |source|
    requires forall i :: 0 <= i < n ==> !Admits(bound, source[i].cursor)
    requires n < |source| ==> Admits(bound, source[n].cursor)
    ensures Skip(source, bound) == n
  {
    SkipSplits(source, bound);
    assert n > 0 ==> !(Skip(source, bound) <= n - 1);
  }

  lemma ThroughSplits(source: seq<Row>, c: Cursor)
    requires Sorted(source)
    ensures forall i :: 0 <= i < |source| ==> (AtMost(source[i].cursor, c) <==> i < Through(source, Some(c)))
  {
    SkipSplits(source, Some(Bound(c, false)));
  }

  lemma RowsAreDistinct(source: seq<Row>)
    requires Sorted(source)
    ensures forall i, j :: 0 <= i < j < |source| ==> source[i] != source[j]
  {
    forall i, j | 0 <= i < j < |source|
      ensures source[i] != source[j]
    {
      assert Before(source[i].cursor, source[j].cursor);
    }
  }

  /** The cursor of row `i` counts `i + 1` rows. */
  lemma ThroughRow(source: seq<Row>, i: nat)
    requires Sorted(source) && i < |source|
    ensures Through(source, Some(source[i].cursor)) == i + 1
  {
    SkipIs(source, Some(Bound(source[i].cursor, false)), i + 1);
  }

  // ---- one page -------------------------------------------------------------------------------

  /** What the collector reports about one page. */
  datatype Page = Page(rows: seq<Row>, truncated: bool, candidate: Option<Cursor>, resume: Option<Cursor>)

  /** The next `maxRows` admitted rows; the candidate never falls behind the committed cursor. */
  function Collect(source: seq<Row>, bound: Option<Bound>, committed: Option<Cursor>, maxRows: nat): Page {
    var from := Skip(source, bound);
    var size := if |source| - from <= maxRows then |source| - from else maxRows;
    var rows := source[from..from + size];
    if rows == [] then Page([], from < |source|, None, None)
    else
      var last := rows[|rows| - 1].cursor;
      Page(rows, from + size < |source|, Some(MaxCursor(last, committed)), Some(last))
  }

  // ---- a chain of pages -----------------------------------------------------------------------

  lemma ResumeSkips(source: seq<Row>, bound: Option<Bound>, committed: Option<Cursor>, maxRows: nat)
    requires Sorted(source) && maxRows >= 1
    requires Collect(source, bound, committed, maxRows).rows != []
    ensures
      var page := Collect(source, bound, committed, maxRows);
      && Skip(source, Some(Bound(page.resume.value, false))) == Skip(source, bound) + |page.rows|
      && Admits(bound, page.resume.value)
  {
    var page := Collect(source, bound, committed, maxRows);
    var last := Skip(source, bound) + |page.rows| - 1;
    assert page.resume.value == source[last].cursor;
    ThroughRow(source, last);
    SkipSplits(source, bound);
  }

  /** A position that some query of a scan returned never makes the next request fail. */
  lemma ResumeStaysValid(request: CursorRequest, c: Cursor)
    requires EffectiveBound(request).Ok? && Admits(EffectiveBound(request).value, c)
    ensures EffectiveBound(request.(resumeAfter := Some(c))) == Ok(Some(Bound(c, false)))
  {
  }

  /** How many rows the next query of a scan still admits. */
  function Remaining(source: seq<Row>, request: CursorRequest): nat {
    match EffectiveBound(request)
    case Ok(bound) => |source| - Skip(source, bound)
    case Err(_) => 0
  }

  /** Collect, resume after the last row, and go on until a page is empty or not truncated. */
  function Pages(source: seq<Row>, request: CursorRequest, maxRows: nat): Result<seq<seq<Row>>, CursorError>
    requires Sorted(source) && maxRows >= 1
    decreases Remaining(source, request)
  {
    var bound := EffectiveBound(request);
    if bound.Err? then Err(bound.error)
    else
      var page := Collect(source, bound.value, request.committed, maxRows);
      if page.rows == [] then Ok([])
      else if !page.truncated then Ok([page.rows])
      else
        ResumeSkips(source, bound.value, request.committed, maxRows);
        ResumeStaysValid(request, page.resume.value);
        var rest := Pages(source, request.(resumeAfter := page.resume), maxRows);
        if rest.Err? then rest else Ok([page.rows] + rest.value)
  }

  function Flatten<T>(parts: seq<seq<T>>): seq<T> {
    if parts == [] then [] else parts[0] + Flatten(parts[1..])
  }

  /** Only the last page may be short, and none is empty. */
  ghost predicate FullPages(pages: seq<seq<Row>>, maxRows: nat) {
    && (forall p :: 0 <= p < |pages| ==> 1 <= |pages[p]| <= maxRows)
    && (forall p :: 0 <= p < |pages| - 1 ==> |pages[p]| == maxRows)
  }

  lemma FullPagesCons(first: seq<Row>, rest: seq<seq<Row>>, maxRows: nat)
    requires FullPages(rest, maxRows) && |first| == maxRows && maxRows >= 1
    ensures FullPages([first] + rest, maxRows)
  {
  }

  lemma FlattenCons<T>(first: seq<T>, rest: seq<seq<T>>)
    ensures Flatten([first] + rest) == first + Flatten(rest)
  {
    assert ([first] + rest)[1..] == rest;
  }

  /** One page of the scan: where it starts, and what the rest of the scan is. */
  lemma PagesUnfold(source: seq<Row>, request: CursorRequest, maxRows: nat)
    requires Sorted(source) && maxRows >= 1 && EffectiveBound(request).Ok?
    ensures
      var from := Skip(source, EffectiveBound(request).value);
      var page := Collect(source, EffectiveBound(request).value, request.committed, maxRows);
      && (page.rows == [] ==> from == |source| && Pages(source, request, maxRows) == Ok([]))
      && (page.rows != [] && !page.truncated ==>
            source[from..] == page.rows && Pages(source, request, maxRows) == Ok([page.rows]))
      && (page.rows != [] && page.truncated ==>
            var next := request.(resumeAfter := page.resume);
            && |page.rows| == maxRows
            && EffectiveBound(next).Ok?
            && Skip(source, EffectiveBound(next).value) == from + maxRows
            && source[from..] == page.rows + source[from + maxRows..]
            && (Pages(source, next, maxRows).Ok? ==>
                  Pages(source, request, maxRows) == Ok([page.rows] + Pages(source, next, maxRows).value)))
  {
    var bound := EffectiveBound(request).value;
    var page := Collect(source, bound, request.committed, maxRows);
    if page.rows != [] && page.truncated {
      ResumeSkips(source, bound, request.committed, maxRows);
      ResumeStaysValid(request, page.resume.value);
    }
  }

  /**
   The paged scan returns what one query without a row limit returns: the rows its first bound
   admits, in source order, each once; and only the first request can be rejected.
   */
  lemma {:induction false} PagedScanRefinesOneQuery(source: seq<Row>, request: CursorRequest, maxRows: nat)
    requires Sorted(source) && maxRows >= 1
    ensures Pages(source, request, maxRows).Ok? <==> EffectiveBound(request).Ok?
    ensures EffectiveBound(request).Ok? ==>
      var pages := Pages(source, request, maxRows).value;
      && Flatten(pages) == source[Skip(source, EffectiveBound(request).value)..]
      && FullPages(pages, maxRows)
    decreases Remaining(source, request)
  {
    if EffectiveBound(request).Ok? {
      PagesUnfold(source, request, maxRows);
      var page := Collect(source, EffectiveBound(request).value, request.committed, maxRows);
      if page.rows != [] {
        if page.truncated {
          var next := request.(resumeAfter := page.resume);
          PagedScanRefinesOneQuery(source, next, maxRows);
          var rest := Pages(source, next, maxRows).value;
          FlattenCons(page.rows, rest);
          FullPagesCons(page.rows, rest, maxRows);
        } else {
          FlattenCons(page.rows, []);
          assert [page.rows] == [page.rows] + [];
        }
      }
    }
  }

  /** A row is scanned if and only if it is wanted: everything after the committed cursor, and the overlap before it. */
  lemma PagedScanReadsWanted(source: seq<Row>, spec: CursorSpec, committed: Option<Cursor>, maxRows: nat, i: nat)
    requires Sorted(source) && maxRows >= 1 && i < |source|
    requires Pages(source, CursorRequest(spec, committed, None), maxRows).Ok?
    ensures source[i] in Flatten(Pages(source, CursorRequest(spec, committed, None), maxRows).value) <==>
              Wanted(spec, committed, source[i].cursor)
    ensures committed.None? || Before(committed.value, source[i].cursor) ==> Wanted(spec, committed, source[i].cursor)
  {
    var request := CursorRequest(spec, committed, None);
    var bound := InitialBound(spec, committed).value;
    PagedScanRefinesOneQuery(source, request, maxRows);
    FirstQueryAdmitsWanted(spec, committed, source[i].cursor);
    SkipSplits(source, bound);
    var from := Skip(source, bound);
    RowsAreDistinct(source);
    if from <= i {
      assert source[from..][i - from] == source[i];
    }
  }

  lemma SliceOfSlice<T>(s: seq<T>, a: nat, b: nat, i: nat, j: nat)
    requires a <= b <= |s| && i <= j <= b - a
    ensures s[a..b][i..j] == s[a + i..a + j]
  {
    var inner, outer := s[a..b][i..j], s[a + i..a + j];
    assert |inner| == |outer|;
    assert forall n :: 0 <= n < |inner| ==> inner[n] == outer[n];
  }

  // ---- the sink -------------------------------------------------------------------------------

  /** The first acknowledgment of each row, in the order the sink saw them. */
  function Dedup(log: seq<Row>): seq<Row> {
    if log == [] then []
    else
      var n := |log| - 1;
      if log[n] in log[..n] then Dedup(log[..n]) else Dedup(log[..n]) + [log[n]]
  }

  lemma {:induction false} DedupKeepsMembers(log: seq<Row>, x: Row)
    ensures x in Dedup(log) <==> x in log
  {
    if log != [] {
      DedupKeepsMembers(log[..|log| - 1], x);
      assert log == log[..|log| - 1] + [log[|log| - 1]];
    }
  }

  lemma DedupOne(log: seq<Row>, x: Row)
    ensures Dedup(log + [x]) == if x in log then Dedup(log) else Dedup(log) + [x]
  {
    assert (log + [x])[..|log|] == log;
  }

  lemma SendOneRow(source: seq<Row>, log: seq<Row>, k: nat, i: nat)
    requires Sorted(source) && i < |source| && i <= k <= |source|
    requires Dedup(log) == source[..k]
    ensures Dedup(log + [source[i]]) == source[..if i < k then k else i + 1]
  {
    RowsAreDistinct(source);
    DedupOne(log, source[i]);
    DedupKeepsMembers(log, source[i]);
    if i < k {
      assert source[..k][i] == source[i];
    } else {
      assert source[..k] + [source[i]] == source[..i + 1];
    }
  }

  /**
   Sending source rows `from..upto` to a sink that already holds the rows before `from` in order
   keeps the deduplicated log an initial part of the source.
   */
  lemma {:induction false} SendExtendsPrefix(source: seq<Row>, log: seq<Row>, k: nat, from: nat, upto: nat)
    requires Sorted(source)
    requires from <= upto <= |source| && from <= k <= |source|
    requires Dedup(log) == source[..k]
    ensures Dedup(log + source[from..upto]) == source[..if upto <= k then k else upto]
    decreases upto - from
  {
    if from == upto {
      assert log + source[from..upto] == log;
    } else {
      SendOneRow(source, log, k, from);
      SendExtendsPrefix(source, log + [source[from]], if from < k then k else from + 1, from + 1, upto);
      assert log + [source[from]] + source[from + 1..upto] == log + source[from..upto];
    }
  }
}
