/** The ways building a manifest fails: the thrown errors and the TypeErrors the code can reach. */
module Errors {
  import opened Formats

  datatype Error =
    | StreamingDataUnavailable
    | NoAdaptiveFormats
    | MissingActions(format: Format)
    | SegmentDurationsMissing(url: string)
    | RangesUnavailable(format: Format)
    | MissingAudioTrack(format: Format)
    | NotANode
}
