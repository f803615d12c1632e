/** Where a record stands in the segmented log, and when the log syncs. */
module LogPositions {
  /** Sync before answering, once a second, or never while appending. */
  datatype Strategy = Always | Everysec | No

  /** A place in the log: the segment file and the byte offset of the record in it. */
  datatype WalPosition = WalPosition(segmentId: nat, offset: nat)

  predicate PositionLess(a: WalPosition, b: WalPosition) {
    a.segmentId < b.segmentId || (a.segmentId == b.segmentId && a.offset < b.offset)
  }

  predicate PositionLeq(a: WalPosition, b: WalPosition) {
    a == b || PositionLess(a, b)
  }
}
