/** The `-g` and `-p` actions of `main` (src/main.rs:289-389): which links
    are printed, which link is played, and the command line handed to mpv
    (or, on Android, to the activity manager). */
module Player {
  import opened Wrappers
  import opened Text
  import opened Media
  import opened Args

  /** A process launch: the program and its argument vector. */
  datatype Command = Command(program: string, args: seq<string>)

  /** The lines `-g` prints (src/main.rs:289-299). */
  function LinkLines(vid: Vid, audioOnly: bool): seq<string>
  {
    match vid.audioLink
    case Some(audio) => if !audioOnly then [vid.vidLink, audio] else [audio]
    case None => [vid.vidLink]
  }

  /** What mpv is pointed at: the main link and, when the streams are
      separate, the audio file to add. */
  datatype Target = Target(link: string, audioFile: Option<string>)

  /** src/main.rs:303-309. The audio link replaces the video link when only
      audio is wanted or there is no video link; otherwise an audio link
      becomes `--audio-file`. The link guard (`HasLink`) is what makes the
      `unwrap` of the audio link safe. */
  function PlayTarget(vid: Vid, audioOnly: bool): Target
    requires HasLink(vid)
  {
    if (audioOnly && vid.audioLink.Some?) || vid.vidLink == [] then Target(vid.audioLink.value, None)
    else Target(vid.vidLink, vid.audioLink)
  }

  /** Everything the mpv command line carries. */
  datatype PlayRequest = PlayRequest(
    link: string,
    title: string,
    userAgent: string,
    referrer: string,
    speed: Option<string>,
    loopFile: bool,
    audioFile: Option<string>,
    chaptersFile: Option<string>,
    audioOnly: bool)

  function RequestOf(vid: Vid, cfg: Config, t: Target): PlayRequest
  {
    PlayRequest(
      t.link, vid.title, vid.userAgent, vid.referrer,
      match cfg.speed case ZeroSpeed => None case NonZeroSpeed(x) => Some(x),
      cfg.loopFile, t.audioFile, vid.chapterFile, cfg.audioOnly)
  }

  function Opt(prefix: string, v: Option<string>): seq<string>
  {
    match v
    case Some(x) => [prefix + x]
    case None => []
  }

  /** The mpv argument vector (src/main.rs:347-389): four fixed arguments,
      then `--speed`, `--loop-file`, `--audio-file`, `--chapters-file`, each
      only when it applies, then the window or no-video switches. */
  function MpvArgs(r: PlayRequest): seq<string>
  {
    [r.link, "--force-media-title=" + r.title, "--user-agent=" + r.userAgent, "--referrer=" + r.referrer]
    + (Opt("--speed=", r.speed)
    + ((if r.loopFile then ["--loop-file"] else [])
    + (Opt("--audio-file=", r.audioFile)
    + (Opt("--chapters-file=", r.chaptersFile)
    + (if !r.audioOnly then ["--no-terminal", "--force-window=immediate"] else ["--no-video"])))))
  }

  /** The value after `prefix`, when `arg` starts with it. */
  function After(prefix: string, arg: string): Option<string>
  {
    if StartsWith(arg, prefix) then Some(arg[|prefix|..]) else None
  }

  /** Takes the argument `prefix + v` off the front of `rest`, if it is there. */
  function ReadOpt(prefix: string, rest: seq<string>): (Option<string>, seq<string>)
  {
    if rest != [] && After(prefix, rest[0]).Some? then (After(prefix, rest[0]), rest[1..]) else (None, rest)
  }

  /** Takes the switch `flag` off the front of `rest`, if it is there. */
  function ReadFlag(flag: string, rest: seq<string>): (bool, seq<string>)
  {
    if rest != [] && rest[0] == flag then (true, rest[1..]) else (false, rest)
  }

  /** Reads an mpv argument vector back, the way mpv itself would see it. */
  function ReadMpvArgs(args: seq<string>): Option<PlayRequest>
  {
    if |args| < 4 then None
    else
      var title, ua, referrer := After("--force-media-title=", args[1]), After("--user-agent=", args[2]), After("--referrer=", args[3]);
      var speed := ReadOpt("--speed=", args[4..]);
      var loopFile := ReadFlag("--loop-file", speed.1);
      var audio := ReadOpt("--audio-file=", loopFile.1);
      var chapters := ReadOpt("--chapters-file=", audio.1);
      if title.None? || ua.None? || referrer.None? then None
      else if chapters.1 == ["--no-terminal", "--force-window=immediate"] then
        Some(PlayRequest(args[0], title.value, ua.value, referrer.value, speed.0, loopFile.0, audio.0, chapters.0, false))
      else if chapters.1 == ["--no-video"] then
        Some(PlayRequest(args[0], title.value, ua.value, referrer.value, speed.0, loopFile.0, audio.0, chapters.0, true))
      else None
  }

  /** The activity-manager argument vector of the Android path
      (src/main.rs:319-329). */
  function AmArgs(link: string): seq<string>
  {
    ["start", "--user", "0", "-a", "android.intent.action.VIEW", "-d", link, "-n", "is.xyz.mpv/.MPVActivity"]
  }

  /** The play action (src/main.rs:300-391). `os` is `std::env::consts::OS`;
      `mpvAvailable` is the outcome of `sh -c "command -v mpv"`, which the
      program only runs on Android with audio-only playback. */
  function PlayCommand(vid: Vid, cfg: Config, os: string, mpvAvailable: bool): Command
    requires HasLink(vid)
  {
    var t := PlayTarget(vid, cfg.audioOnly);
    if os == "android" && (!cfg.audioOnly || !mpvAvailable) then Command("am", AmArgs(t.link))
    else Command(if os == "windows" then "mpv.exe" else "mpv", MpvArgs(RequestOf(vid, cfg, t)))
  }

  // ---------------------------------------------------------------------
  // Properties

  /** The link guard makes the target well defined, and `-g` and `-p`
      agree: with an audio link and audio-only, only the audio link is
      printed and played; with an audio link otherwise, both are printed
      and the audio becomes `--audio-file`, unless there is no video link,
      when the audio link is played alone; without an audio link the
      (non-empty) video link is printed and played. */
  lemma LinkSelection(vid: Vid, audioOnly: bool)
    requires HasLink(vid)
    ensures vid.audioLink.Some? && audioOnly ==>
      LinkLines(vid, audioOnly) == [vid.audioLink.value] &&
      PlayTarget(vid, audioOnly) == Target(vid.audioLink.value, None)
    ensures vid.audioLink.Some? && !audioOnly ==>
      LinkLines(vid, audioOnly) == [vid.vidLink, vid.audioLink.value] &&
      PlayTarget(vid, audioOnly) ==
        if vid.vidLink == [] then Target(vid.audioLink.value, None)
        else Target(vid.vidLink, Some(vid.audioLink.value))
    ensures vid.audioLink.None? ==>
      vid.vidLink != [] &&
      LinkLines(vid, audioOnly) == [vid.vidLink] &&
      PlayTarget(vid, audioOnly) == Target(vid.vidLink, None)
    ensures PlayTarget(vid, audioOnly).link in LinkLines(vid, audioOnly)
  {
  }

  lemma AfterPrefix(prefix: string, x: string)
    ensures After(prefix, prefix + x) == Some(x)
  {
    assert (prefix + x)[..|prefix|] == prefix;
    assert (prefix + x)[|prefix|..] == x;
  }

  /** Arguments whose third characters differ do not share a prefix. */
  lemma ThirdCharDiffers(prefix: string, x: string)
    requires |prefix| > 2 && |x| > 2 && x[2] != prefix[2]
    ensures After(prefix, x).None? && x != prefix
  {
  }

  /** The third character of every optional or closing mpv argument. */
  function Third(x: string): char
  {
    if |x| > 2 then x[2] else ' '
  }

  lemma ReadOptOf(prefix: string, v: Option<string>, more: seq<string>)
    requires |prefix| > 2 && more != [] && |more[0]| > 2 && Third(more[0]) != prefix[2]
    ensures ReadOpt(prefix, Opt(prefix, v) + more) == (v, more)
  {
    if v.Some? {
      AfterPrefix(prefix, v.value);
      assert (Opt(prefix, v) + more)[1..] == more;
    } else {
      ThirdCharDiffers(prefix, more[0]);
      assert Opt(prefix, v) + more == more;
    }
  }

  lemma ReadFlagOf(flag: string, on: bool, more: seq<string>)
    requires |flag| > 2 && more != [] && |more[0]| > 2 && Third(more[0]) != flag[2]
    ensures ReadFlag(flag, (if on then [flag] else []) + more) == (on, more)
  {
    if on {
      assert ([flag] + more)[1..] == more;
    } else {
      ThirdCharDiffers(flag, more[0]);
      assert [] + more == more;
    }
  }

  lemma OptThird(prefix: string, v: Option<string>, more: seq<string>)
    requires |prefix| > 2 && more != [] && |more[0]| > 2
    ensures var a := Opt(prefix, v) + more;
      a != [] && |a[0]| > 2 && Third(a[0]) == if v.Some? then prefix[2] else Third(more[0])
  {
    if v.Some? {
      assert (prefix + v.value)[2] == prefix[2];
    }
  }

  /** mpv reads back exactly the request the program meant: the argument
      vector has the documented layout and nothing is lost or reordered. */
  lemma MpvArgsRoundTrip(r: PlayRequest)
    ensures ReadMpvArgs(MpvArgs(r)) == Some(r)
  {
    var tail := if !r.audioOnly then ["--no-terminal", "--force-window=immediate"] else ["--no-video"];
    var c := Opt("--chapters-file=", r.chaptersFile) + tail;
    var b := Opt("--audio-file=", r.audioFile) + c;
    var l := (if r.loopFile then ["--loop-file"] else []) + b;
    var a := Opt("--speed=", r.speed) + l;
    assert MpvArgs(r)[4..] == a;
    AfterPrefix("--force-media-title=", r.title);
    AfterPrefix("--user-agent=", r.userAgent);
    AfterPrefix("--referrer=", r.referrer);
    ReadOptOf("--chapters-file=", r.chaptersFile, tail);
    OptThird("--chapters-file=", r.chaptersFile, tail);
    ReadOptOf("--audio-file=", r.audioFile, c);
    OptThird("--audio-file=", r.audioFile, c);
    ReadFlagOf("--loop-file", r.loopFile, b);
    assert l != [] && |l[0]| > 2 && Third(l[0]) != 's';
    ReadOptOf("--speed=", r.speed, l);
  }

  /** The activity-manager path is taken exactly on Android when playing
      video, or audio without a local mpv; without audio-only the mpv probe
      does not matter. Otherwise the program is `mpv` (`mpv.exe` on
      Windows) and its arguments carry the request. */
  lemma PlayCommandChoice(vid: Vid, cfg: Config, os: string, mpvAvailable: bool)
    requires HasLink(vid)
    ensures var c := PlayCommand(vid, cfg, os, mpvAvailable);
      && (c.program == "am" <==> os == "android" && (!cfg.audioOnly || !mpvAvailable))
      && (c.program == "am" ==> c.args == AmArgs(PlayTarget(vid, cfg.audioOnly).link))
      && (c.program != "am" ==>
            c.program == (if os == "windows" then "mpv.exe" else "mpv") &&
            ReadMpvArgs(c.args) == Some(RequestOf(vid, cfg, PlayTarget(vid, cfg.audioOnly))))
    ensures !cfg.audioOnly ==> PlayCommand(vid, cfg, os, true) == PlayCommand(vid, cfg, os, false)
  {
    MpvArgsRoundTrip(RequestOf(vid, cfg, PlayTarget(vid, cfg.audioOnly)));
  }
}
