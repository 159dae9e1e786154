/**
 Opaque identities. A SHA-256 value is represented by the fields that are hashed: two hashes are
 equal exactly when their preimages are, which is the collision-freedom the daemon relies on.
 */
module Identity {
  import opened Wrappers
  import opened Cursors

  type AttemptId = Bytes
  type SegmentId = Bytes

  datatype CursorIdentity = CursorIdentity(timestampField: string, idField: string)

  /** What stays fixed for the life of a checkpoint: input, source lineage and cursor identity. */
  datatype SourceIdentity = SourceIdentity(inputId: Bytes, lineage: Bytes, cursor: CursorIdentity)

  /** The revision fingerprint covers the operational settings and the overlap. */
  datatype Revision = Revision(operational: Bytes, overlap: Duration)

  /** Fence of one configuration incarnation: the generation keeps a returning revision distinct. */
  datatype ConfigurationId = ConfigurationFence(revision: Revision, generation: U64)

  /** The lower-bound request a page answers; the cursor identity separates inputs. */
  datatype RequestFingerprint =
    RequestFingerprint(cursor: CursorIdentity, committed: Option<Cursor>, resumeAfter: Option<Cursor>)
}
