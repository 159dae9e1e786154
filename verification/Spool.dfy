/** Sealed segments and the durable spool of one input: a segment is ready or delivered. */
module Spool {
  import opened Wrappers
  import opened Cursors
  import opened Identity
  import opened Source

  datatype SegmentHeader = SegmentHeader(
    inputId: Bytes,
    revision: Revision,
    configurationGeneration: U64,
    batchId: AttemptId,
    batchSequence: U64,
    segmentSequence: U64)

  datatype RecoveryMetadata = RecoveryMetadata(
    rows: U64,
    truncated: bool,
    request: RequestFingerprint,
    candidate: Option<Cursor>,
    resume: Option<Cursor>)

  datatype Segment = Segment(id: SegmentId, header: SegmentHeader, metadata: RecoveryMetadata, events: seq<Row>)

  datatype Located = Ready(segment: Segment) | Delivered(segment: Segment)

  type Store = map<SegmentId, Located>
}
