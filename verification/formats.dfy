/** The streaming formats the manifest is built from; they are read, never changed. */
module Formats {
  import opened Wrappers
  import opened JsValues

  /** An inclusive byte range within a media file. */
  datatype Range = Range(start: nat, end: nat)

  /** The audio-track descriptor of a format in a multi-language stream. */
  datatype AudioTrack = AudioTrack(id: string, displayName: string, audioIsDefault: bool)

  datatype Format = Format(
    itag: nat,
    mimeType: string,
    bitrate: nat,
    width: Option<nat>,
    height: Option<nat>,
    fps: Option<nat>,
    audioSampleRate: Option<nat>,
    audioChannels: Option<nat>,
    audioTrack: Option<AudioTrack>,
    isDubbed: bool,
    isDescriptive: bool,
    language: Value,
    hasAudio: bool,
    hasVideo: bool,
    isTypeOtf: bool,
    indexRange: Option<Range>,
    initRange: Option<Range>,
    approxDurationMs: nat)

  datatype StreamingData = StreamingData(adaptiveFormats: seq<Format>)

  /** A format the manifest can address: either both byte ranges are known or it is an OTF stream. */
  predicate Addressable(f: Format) {
    (f.indexRange.Some? && f.initRange.Some?) || f.isTypeOtf
  }

  /** Every format of the list can be addressed. */
  predicate AllAddressable(formats: seq<Format>) {
    forall i :: 0 <= i < |formats| ==> Addressable(formats[i])
  }

  function MimeOf(f: Format): string {
    f.mimeType
  }
}
