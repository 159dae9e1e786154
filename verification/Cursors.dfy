/** Timestamp-plus-id cursors and the lower bound of one collection query. */
module Cursors {
  import opened Wrappers

  datatype Ordering = Less | Equal | Greater

  datatype Cursor = Cursor(ts: I64, id: I64)

  /** Lexicographic: the timestamp decides, then the identifier. */
  function PositionCmp(a: Cursor, b: Cursor): Ordering {
    if a.ts < b.ts then Less
    else if a.ts > b.ts then Greater
    else if a.id < b.id then Less
    else if a.id > b.id then Greater
    else Equal
  }

  predicate Before(a: Cursor, b: Cursor) {
    PositionCmp(a, b) == Less
  }

  predicate AtMost(a: Cursor, b: Cursor) {
    PositionCmp(a, b) != Greater
  }

  /** A strict total order, so "the larger of two cursors" and "strictly ordered source" make sense. */
  lemma CursorOrderIsStrictTotal(a: Cursor, b: Cursor, c: Cursor)
    ensures PositionCmp(a, b) == Equal <==> a == b
    ensures PositionCmp(a, b) == Less <==> PositionCmp(b, a) == Greater
    ensures Before(a, b) && AtMost(b, c) ==> Before(a, c)
    ensures AtMost(a, b) && Before(b, c) ==> Before(a, c)
    ensures AtMost(a, b) && AtMost(b, c) ==> AtMost(a, c)
  {
  }

  function MaxCursor(a: Cursor, committed: Option<Cursor>): Cursor {
    if committed.Some? && PositionCmp(committed.value, a) == Greater then committed.value else a
  }

  /** A standard duration: whole seconds plus a sub-second part. */
  datatype Duration = Duration(secs: U64, nanos: nat)

  function AsMicros(d: Duration): nat {
    d.secs * 1_000_000 + d.nanos / 1_000
  }

  predicate IsZero(d: Duration) {
    d.secs == 0 && d.nanos == 0
  }

  datatype CursorSpec = CursorSpec(timestampField: string, idField: string, overlap: Duration)

  datatype CursorError =
    | EmptyFieldName
    | DuplicateFieldName
    | OverlapOutOfRange
    | OverlapPrecisionLoss
    | TimestampUnderflow
    | ResumeBeforeInitialBound

  predicate IsWhitespace(c: char) {
    var n := c as int;
    || 0x09 <= n <= 0x0D || n == 0x20 || n == 0x85 || n == 0xA0 || n == 0x1680
    || 0x2000 <= n <= 0x200A || n == 0x2028 || n == 0x2029 || n == 0x202F || n == 0x205F || n == 0x3000
  }

  predicate IsBlank(s: string) {
    forall i :: 0 <= i < |s| ==> IsWhitespace(s[i])
  }

  function ValidateSpec(spec: CursorSpec): Outcome<CursorError> {
    if IsBlank(spec.timestampField) || IsBlank(spec.idField) then Fail(EmptyFieldName)
    else if spec.timestampField == spec.idField then Fail(DuplicateFieldName)
    else if spec.overlap.nanos % 1_000 != 0 then Fail(OverlapPrecisionLoss)
    else if AsMicros(spec.overlap) > MAX_I64 then Fail(OverlapOutOfRange)
    else Pass
  }

  datatype Bound = Bound(value: Cursor, inclusive: bool)

  datatype CursorRequest = CursorRequest(spec: CursorSpec, committed: Option<Cursor>, resumeAfter: Option<Cursor>)

  function InitialBound(spec: CursorSpec, committed: Option<Cursor>): Result<Option<Bound>, CursorError> {
    if committed.None? then Ok(None)
    else if IsZero(spec.overlap) then Ok(Some(Bound(committed.value, false)))
    else if AsMicros(spec.overlap) > MAX_I64 then Err(OverlapOutOfRange)
    else
      var ts := committed.value.ts - AsMicros(spec.overlap);
      if ts < MIN_I64 then Err(TimestampUnderflow)
      else Ok(Some(Bound(Cursor(ts, MIN_I64), true)))
  }

  function EffectiveBound(request: CursorRequest): Result<Option<Bound>, CursorError> {
    var valid := ValidateSpec(request.spec);
    if valid.Fail? then Err(valid.error)
    else if request.resumeAfter.Some? then
      var initial := InitialBound(request.spec, request.committed);
      if initial.Err? then Err(initial.error)
      else if initial.value.Some? && PositionCmp(request.resumeAfter.value, initial.value.value.value) == Less then
        Err(ResumeBeforeInitialBound)
      else Ok(Some(Bound(request.resumeAfter.value, false)))
    else InitialBound(request.spec, request.committed)
  }

  /** The row predicate the connectors put into the query. */
  predicate Admits(bound: Option<Bound>, c: Cursor) {
    bound.Some? ==>
      if bound.value.inclusive then PositionCmp(c, bound.value.value) != Less
      else PositionCmp(c, bound.value.value) == Greater
  }

  /** Whatever the overlap, no row after the committed cursor is left out of the first query. */
  lemma InitialBoundAdmitsAfterCommitted(spec: CursorSpec, committed: Option<Cursor>, c: Cursor)
    requires InitialBound(spec, committed).Ok?
    requires committed.Some? ==> Before(committed.value, c)
    ensures Admits(InitialBound(spec, committed).value, c)
  {
  }

  /** A bound admits an upper segment of the order: everything past an admitted row is admitted. */
  lemma AdmitsIsUpwardClosed(bound: Option<Bound>, a: Cursor, b: Cursor)
    requires Admits(bound, a) && Before(a, b)
    ensures Admits(bound, b)
  {
  }

  // ---- what the queries ask for ---------------------------------------------------------------

  /** The overlap in microseconds. */
  function Micros(spec: CursorSpec): nat {
    spec.overlap.secs * 1_000_000 + spec.overlap.nanos / 1_000
  }

  predicate NoOverlap(spec: CursorSpec) {
    spec.overlap.secs == 0 && spec.overlap.nanos == 0
  }

  /**
   The rows a scan is to read: all of them if nothing is committed; those after the committed cursor
   if there is no overlap; otherwise those no older than the committed timestamp less the overlap.
   */
  predicate Wanted(spec: CursorSpec, committed: Option<Cursor>, c: Cursor) {
    || committed.None?
    || (NoOverlap(spec) && (committed.value.ts < c.ts || (committed.value.ts == c.ts && committed.value.id < c.id)))
    || (!NoOverlap(spec) && committed.value.ts - Micros(spec) <= c.ts)
  }

  /** The first query admits exactly the wanted rows: it reaches back by the overlap, no more and no less. */
  lemma FirstQueryAdmitsWanted(spec: CursorSpec, committed: Option<Cursor>, c: Cursor)
    requires InitialBound(spec, committed).Ok?
    ensures Admits(InitialBound(spec, committed).value, c) <==> Wanted(spec, committed, c)
  {
  }

  /** It cannot be asked only where the overlap, or the timestamp it reaches, leaves the 64 bits. */
  lemma FirstQueryFailsExactlyWhen(spec: CursorSpec, committed: Option<Cursor>)
    ensures InitialBound(spec, committed) == Err(OverlapOutOfRange) <==>
              committed.Some? && !NoOverlap(spec) && Micros(spec) > MAX_I64
    ensures InitialBound(spec, committed) == Err(TimestampUnderflow) <==>
              committed.Some? && !NoOverlap(spec) && Micros(spec) <= MAX_I64 && committed.value.ts - Micros(spec) < MIN_I64
    ensures InitialBound(spec, committed).Err? ==> InitialBound(spec, committed).error in {OverlapOutOfRange, TimestampUnderflow}
  {
  }

  /** A definition is usable if its names are not blank and differ, and its overlap is whole microseconds in range. */
  lemma SpecIsValidExactlyWhen(spec: CursorSpec)
    ensures ValidateSpec(spec).Pass? <==>
      && (exists i :: 0 <= i < |spec.timestampField| && !IsWhitespace(spec.timestampField[i]))
      && (exists i :: 0 <= i < |spec.idField| && !IsWhitespace(spec.idField[i]))
      && spec.timestampField != spec.idField
      && spec.overlap.nanos % 1_000 == 0 && Micros(spec) <= MAX_I64
  {
  }

  lemma WantedGoesOn(spec: CursorSpec, committed: Option<Cursor>, resume: Cursor, c: Cursor)
    requires (Wanted(spec, committed, resume) || committed == Some(resume)) && Before(resume, c)
    ensures Wanted(spec, committed, c)
  {
  }

  lemma ReachesExactlyWanted(spec: CursorSpec, committed: Option<Cursor>, resume: Cursor)
    requires InitialBound(spec, committed).Ok?
    ensures
      var bound := InitialBound(spec, committed).value;
      !(bound.Some? && PositionCmp(resume, bound.value.value) == Less) <==>
        Wanted(spec, committed, resume) || committed == Some(resume)
  {
  }

  /**
   A later query of a scan admits exactly the rows after the resume position. It is asked exactly if
   that position is one the first query reaches, so it never admits what the first did not.
   */
  lemma LaterQueryGoesOn(request: CursorRequest, resume: Cursor, c: Cursor)
    requires ValidateSpec(request.spec).Pass? && request.resumeAfter == Some(resume)
    ensures EffectiveBound(request).Ok? <==>
      && InitialBound(request.spec, request.committed).Ok?
      && (Wanted(request.spec, request.committed, resume) || request.committed == Some(resume))
    ensures EffectiveBound(request).Ok? ==>
      && (Admits(EffectiveBound(request).value, c) <==> Before(resume, c))
      && (Before(resume, c) ==> Wanted(request.spec, request.committed, c))
  {
    if InitialBound(request.spec, request.committed).Ok? {
      ReachesExactlyWanted(request.spec, request.committed, resume);
      if EffectiveBound(request).Ok? && Before(resume, c) {
        WantedGoesOn(request.spec, request.committed, resume, c);
      }
    }
  }
}
