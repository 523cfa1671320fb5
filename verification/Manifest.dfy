// What the two manifest parsers share (crates/gunda-stream/src/error.rs, crates/gunda-stream/src/lib.rs).
module Manifests {
  import opened Basics

  const MAX_SEGMENTS: nat := 200_000

  datatype ManifestError =
    | NotAManifest
    | AmbiguousPlaylist
    | Malformed
    | InvalidByteRange
    | InvalidNumber
    | TooManySegments
    | DataUriSegments
    | IncompletePresentation
    | SelectionUnavailable

  /** `length` bytes from `offset` on, or from where the range before ended. */
  datatype ByteRange = ByteRange(length: nat, offset: Option<nat>)
}
