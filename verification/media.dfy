/** The record every site resolver returns (`Vid`, src/main.rs:20-31, and its `Default`, 33-47). */
module Media {
  import opened Wrappers

  /** Rust's `u16`. */
  type U16 = n: nat | n < 0x1_0000

  datatype Vid = Vid(
    userAgent: string,
    referrer: string,
    title: string,
    vidLink: string,
    vidCodec: Option<string>,
    resolution: Option<U16>,
    audioLink: Option<string>,
    audioCodec: Option<string>,
    chapterFile: Option<string>)

  /** `Vid::default()`: the value `main` starts from; its user agent is
      "uwu" and everything else is empty or absent. */
  const DefaultVid: Vid := Vid("uwu", "", "", "", None, None, None, None, None)

  /** There is something to play, print or download (src/main.rs:282). */
  predicate HasLink(v: Vid)
  {
    v.vidLink != [] || v.audioLink.Some?
  }
}
