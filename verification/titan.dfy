/** `main` as a whole (src/main.rs:61-541): parse the arguments, check that
    there is a link, then perform the chosen action. Every effect is a
    returned value; the outcomes the program cannot know in advance (the
    resolvers, the OS, whether mpv is installed, whether ffmpeg succeeds,
    which characters are emoji) are parameters. */
module Titan {
  import opened Wrappers
  import opened Text
  import opened Sanitizer
  import opened Classifier
  import opened Media
  import opened Args
  import opened Fold
  import opened Player
  import opened Download

  datatype Outcome =
    | Exit(code: int, reason: Stop)
    | ShowVid(vid: Vid)                    // Todo::Debug prints the record
    | PrintLinks(lines: seq<string>)
    | Launch(cmd: Command)
    | Downloads(steps: seq<PlanStep>)

  /** `main` with the download plan built either as the source builds it
      (`corrected` false) or with the corrected naming (`corrected` true);
      every other action is the same in both. */
  function RunWith(env: Env, args: seq<string>, os: string, mpvAvailable: bool,
                   isEmoji: char -> bool, mergeOk: bool, corrected: bool): Outcome
  {
    match Parse(env, args)
    case Err(stop) => Exit(ExitCode(stop), stop)
    case Ok(st) =>
      if !HasLink(st.vid) then Exit(ExitCode(NoLink), NoLink)
      else
        match st.cfg.todo
        case Debug => ShowVid(st.vid)
        case GetLink => PrintLinks(LinkLines(st.vid, st.cfg.audioOnly))
        case Play => Launch(PlayCommand(st.vid, st.cfg, os, mpvAvailable))
        case Download =>
          Downloads(if corrected then Plan(st.vid, st.cfg.audioOnly, isEmoji, mergeOk)
                    else PlanAsWritten(st.vid, st.cfg.audioOnly, isEmoji, mergeOk))
  }

  /** `main` as written: `-d` runs the plan whose merge reads the
      unformatted names while aria2 wrote the formatted ones. */
  function Run(env: Env, args: seq<string>, os: string, mpvAvailable: bool,
               isEmoji: char -> bool, mergeOk: bool): Outcome
  {
    RunWith(env, args, os, mpvAvailable, isEmoji, mergeOk, false)
  }

  /** `main` with the corrected download plan (see `Download.Plan`). */
  function RunCorrected(env: Env, args: seq<string>, os: string, mpvAvailable: bool,
                        isEmoji: char -> bool, mergeOk: bool): Outcome
  {
    RunWith(env, args, os, mpvAvailable, isEmoji, mergeOk, true)
  }

  /** The correction changes downloads only: both runs download exactly
      when the arguments parse to a record with a link and the download
      action, and then they differ only in the plan; every other outcome
      is the same. */
  lemma CorrectionOnlyTouchesDownloads(env: Env, args: seq<string>, os: string, mpvAvailable: bool, isEmoji: char -> bool, mergeOk: bool)
    ensures var a, c := Run(env, args, os, mpvAvailable, isEmoji, mergeOk), RunCorrected(env, args, os, mpvAvailable, isEmoji, mergeOk);
      && (a.Downloads? <==> Parse(env, args).Ok? && HasLink(Parse(env, args).value.vid) && Parse(env, args).value.cfg.todo == Download)
      && (a.Downloads? <==> c.Downloads?)
      && (!a.Downloads? ==> a == c)
      && (a.Downloads? ==>
            var st := Parse(env, args).value;
            a.steps == PlanAsWritten(st.vid, st.cfg.audioOnly, isEmoji, mergeOk) &&
            c.steps == Plan(st.vid, st.cfg.audioOnly, isEmoji, mergeOk))
  {
  }

  /** Every file the corrected run hands to ffmpeg or deletes was written
      by an earlier aria2 download. */
  lemma CorrectedRunReadsOnlyFetched(env: Env, args: seq<string>, os: string, mpvAvailable: bool, isEmoji: char -> bool, mergeOk: bool)
    ensures var c := RunCorrected(env, args, os, mpvAvailable, isEmoji, mergeOk);
      c.Downloads? ==> ReadsOnlyFetched(c.steps)
  {
    CorrectionOnlyTouchesDownloads(env, args, os, mpvAvailable, isEmoji, mergeOk);
    if Run(env, args, os, mpvAvailable, isEmoji, mergeOk).Downloads? {
      var st := Parse(env, args).value;
      PlanReadsOnlyFetched(st.vid, st.cfg.audioOnly, isEmoji, mergeOk);
    }
  }

  /** When the emoji-free title already has the formatted shape, the run as
      written and the corrected run are the same. */
  lemma RunsAgreeWhenNamesCoincide(env: Env, args: seq<string>, os: string, mpvAvailable: bool, isEmoji: char -> bool, mergeOk: bool)
    requires Parse(env, args).Ok?
    requires var n := RemoveEmojis(Parse(env, args).value.vid.title, isEmoji);
      |n| <= 201 && '/' !in n && !AllWhitespace(n) && n[|n| - 1] != '.'
    ensures Run(env, args, os, mpvAvailable, isEmoji, mergeOk) == RunCorrected(env, args, os, mpvAvailable, isEmoji, mergeOk)
  {
    CorrectionOnlyTouchesDownloads(env, args, os, mpvAvailable, isEmoji, mergeOk);
    var st := Parse(env, args).value;
    NamesCoincide(st.vid, st.cfg.audioOnly, isEmoji, mergeOk);
  }

  /** The link guard (src/main.rs:282-285): a run whose arguments parse but
      whose record has neither a video nor an audio link exits 1 before
      any action; every action therefore sees a link. */
  lemma LinkGuard(env: Env, args: seq<string>, os: string, mpvAvailable: bool, isEmoji: char -> bool, mergeOk: bool)
    requires Parse(env, args).Ok?
    ensures var o := Run(env, args, os, mpvAvailable, isEmoji, mergeOk);
      (o == Exit(1, NoLink) <==> !HasLink(Parse(env, args).value.vid)) &&
      (!o.Exit? ==> HasLink(Parse(env, args).value.vid))
  {
  }

  /** Exit status 0 is reserved for help and version; every other stop
      exits 1. */
  lemma ExitCodes(env: Env, args: seq<string>, os: string, mpvAvailable: bool, isEmoji: char -> bool, mergeOk: bool)
    ensures var o := Run(env, args, os, mpvAvailable, isEmoji, mergeOk);
      o.Exit? ==> (o.code == 0 <==> o.reason == HelpShown || o.reason == VersionShown) && (o.code == 0 || o.code == 1)
  {
  }

  /** Running with no argument at all exits 1 (src/main.rs:277-280). */
  lemma NoArgumentsExitOne(env: Env, os: string, mpvAvailable: bool, isEmoji: char -> bool, mergeOk: bool)
    ensures Run(env, [], os, mpvAvailable, isEmoji, mergeOk) == Exit(1, NoArgs)
  {
  }

  /** `-h` or `--help` first: help is shown and the run exits 0 whatever
      follows (src/main.rs:174-177). */
  lemma HelpFirst(env: Env, args: seq<string>, os: string, mpvAvailable: bool, isEmoji: char -> bool, mergeOk: bool)
    requires args != [] && (args[0] == "-h" || args[0] == "--help")
    ensures Run(env, args, os, mpvAvailable, isEmoji, mergeOk) == Exit(0, HelpShown)
  {
    assert ArmOf(args[0]) == HelpArm;
  }

  /** A lone URL no rule accepts: the run stops with exit status 1 naming
      the fragment (src/main.rs:261-264). */
  lemma UnsupportedLinkExits(env: Env, url: string, os: string, mpvAvailable: bool, isEmoji: char -> bool, mergeOk: bool)
    requires IsLink(url) && Classify(Fragment(url)) == Unsupported
    ensures Run(env, [url], os, mpvAvailable, isEmoji, mergeOk) == Exit(1, UnsupportedLink(Fragment(url)))
  {
    LinkArmOf(url);
    assert Step(env, Start, url) == Err(UnsupportedLink(Fragment(url)));
    assert Parse(env, [url]) == Err(UnsupportedLink(Fragment(url)));
  }

  /** Resolving the first link from a state still holding the default
      record, with the settings the flags before it left. */
  lemma FirstLinkStep(env: Env, st: State, url: string, id: ResolverId, v: Vid)
    requires st.vid == DefaultVid
    requires IsLink(url) && Classify(Fragment(url)) == Resolve(id)
    requires env.resolve(id, Fragment(url), HintsFor(id, st.cfg)) == Ok(v)
    ensures Step(env, st, url) == Ok(st.(vid := v, log := st.log + [Resolving(Call(id, Fragment(url), HintsFor(id, st.cfg)))]))
  {
    LinkArmOf(url);
  }

  /** `-g URL` on a site yielding separate streams prints the video link and
      then the audio link, the resolver having been asked with the default
      settings and `todo` set to get-link. */
  lemma GetBothLinks(env: Env, url: string, id: ResolverId, v: Vid, os: string, mpvAvailable: bool, isEmoji: char -> bool, mergeOk: bool)
    requires IsLink(url) && Classify(Fragment(url)) == Resolve(id)
    requires env.resolve(id, Fragment(url), HintsFor(id, Defaults.(todo := GetLink))) == Ok(v)
    requires v.vidLink != [] && v.audioLink.Some?
    ensures Run(env, ["-g", url], os, mpvAvailable, isEmoji, mergeOk) == PrintLinks([v.vidLink, v.audioLink.value])
  {
    GetFlag();
    var st1 := Start.(cfg := Defaults.(todo := GetLink));
    assert Step(env, Start, "-g") == Ok(st1);
    FirstLinkStep(env, st1, url, id, v);
    var st2 := Step(env, st1, url).value;
    assert Args.Fold(env, st1, [url]) == Ok(st2);
    assert Parse(env, ["-g", url]) == Ok(st2);
    LinkSelection(v, false);
  }

  /** `-g -a URL`: only the audio link is printed. */
  lemma GetAudioLink(env: Env, url: string, id: ResolverId, v: Vid, os: string, mpvAvailable: bool, isEmoji: char -> bool, mergeOk: bool)
    requires IsLink(url) && Classify(Fragment(url)) == Resolve(id)
    requires env.resolve(id, Fragment(url), HintsFor(id, Defaults.(todo := GetLink, audioOnly := true))) == Ok(v)
    requires v.audioLink.Some?
    ensures Run(env, ["-g", "-a", url], os, mpvAvailable, isEmoji, mergeOk) == PrintLinks([v.audioLink.value])
  {
    GetFlag();
    AudioOnlyFlag();
    var st1 := Start.(cfg := Defaults.(todo := GetLink));
    var st2 := Start.(cfg := Defaults.(todo := GetLink, audioOnly := true));
    assert Step(env, Start, "-g") == Ok(st1);
    assert Step(env, st1, "-a") == Ok(st2);
    FirstLinkStep(env, st2, url, id, v);
    var st3 := Step(env, st2, url).value;
    assert Args.Fold(env, st2, [url]) == Ok(st3);
    assert ["-g", "-a", url][1..] == ["-a", url];
    assert Args.Fold(env, st1, ["-a", url]) == Ok(st3);
    assert Parse(env, ["-g", "-a", url]) == Ok(st3);
    LinkSelection(v, true);
  }

  /** Two URLs: the first is resolved, the second only raises the
      multiple-links warning, and the run goes on with the first link's
      record (src/main.rs:218 and 265-268). */
  lemma SecondLinkIgnored(env: Env, u1: string, u2: string, id: ResolverId, v: Vid)
    requires IsLink(u1) && IsLink(u2) && Classify(Fragment(u1)) == Resolve(id)
    requires env.resolve(id, Fragment(u1), HintsFor(id, Defaults)) == Ok(v)
    requires v != DefaultVid
    ensures Parse(env, [u1, u2]) ==
      Ok(State(Defaults, v, true, [Resolving(Call(id, Fragment(u1), HintsFor(id, Defaults))), MultipleLinksWarning]))
  {
    FirstLinkStep(env, Start, u1, id, v);
    var st1 := Step(env, Start, u1).value;
    LinkArmOf(u2);
    var st2 := st1.(multipleLinks := true, log := st1.log + [MultipleLinksWarning]);
    assert Step(env, st1, u2) == Ok(st2);
    assert Args.Fold(env, st1, [u2]) == Ok(st2);
    assert [u1, u2][1..] == [u2];
    assert Args.Fold(env, Start, [u1, u2]) == Ok(st2);
    assert st2 == State(Defaults, v, true, [Resolving(Call(id, Fragment(u1), HintsFor(id, Defaults))), MultipleLinksWarning]);
  }

  /** `-d URL` turns the streaming-link hint off before the resolver runs
      and downloads the record it returns: as written with the plan that
      merges the unformatted names, corrected with the plan that merges the
      formatted names aria2 wrote. */
  lemma DownloadRun(env: Env, url: string, id: ResolverId, v: Vid, os: string, mpvAvailable: bool, isEmoji: char -> bool, mergeOk: bool)
    requires IsLink(url) && Classify(Fragment(url)) == Resolve(id)
    requires env.resolve(id, Fragment(url), HintsFor(id, Defaults.(todo := Download, streamingLink := false))) == Ok(v)
    requires HasLink(v)
    ensures Run(env, ["-d", url], os, mpvAvailable, isEmoji, mergeOk) == Downloads(PlanAsWritten(v, false, isEmoji, mergeOk))
    ensures RunCorrected(env, ["-d", url], os, mpvAvailable, isEmoji, mergeOk) == Downloads(Plan(v, false, isEmoji, mergeOk))
  {
    DownloadFlag();
    var st1 := Start.(cfg := Defaults.(todo := Download, streamingLink := false));
    assert Step(env, Start, "-d") == Ok(st1);
    FirstLinkStep(env, st1, url, id, v);
    var st2 := Step(env, st1, url).value;
    assert Args.Fold(env, st1, [url]) == Ok(st2);
    assert Parse(env, ["-d", url]) == Ok(st2);
  }

  /** `-m URL` on a desktop with mpv: audio only, looped, at speed 1, played
      from the audio link when there is one. */
  lemma MusicRun(env: Env, url: string, id: ResolverId, v: Vid, isEmoji: char -> bool, mergeOk: bool)
    requires IsLink(url) && Classify(Fragment(url)) == Resolve(id)
    requires env.resolve(id, Fragment(url),
      HintsFor(id, Defaults.(audioOnly := true, loopFile := true, speed := NonZeroSpeed("1"), todo := Play))) == Ok(v)
    requires v.audioLink.Some?
    ensures var o := Run(env, ["-m", url], "linux", true, isEmoji, mergeOk);
      o.Launch? && o.cmd.program == "mpv" &&
      ReadMpvArgs(o.cmd.args) == Some(PlayRequest(v.audioLink.value, v.title, v.userAgent, v.referrer,
        Some("1"), true, None, v.chapterFile, true))
  {
    MusicFlag();
    var cfg := Defaults.(audioOnly := true, loopFile := true, speed := NonZeroSpeed("1"), todo := Play);
    var st1 := Start.(cfg := cfg);
    assert Step(env, Start, "-m") == Ok(st1);
    FirstLinkStep(env, st1, url, id, v);
    var st2 := Step(env, st1, url).value;
    assert Args.Fold(env, st1, [url]) == Ok(st2);
    assert Parse(env, ["-m", url]) == Ok(st2);
    PlayCommandChoice(v, cfg, "linux", true);
    LinkSelection(v, true);
  }

  /** `-d` clears the streaming-link hint and a later `-s` sets it again;
      the action stays Download (src/main.rs:195-200). */
  lemma LaterStreamLinkWins(env: Env)
    ensures Parse(env, ["-d", "-s"]) == Ok(Start.(cfg := Defaults.(todo := Download, streamingLink := true)))
  {
    DownloadFlag();
    StreamLinkFlag();
    var st1 := Start.(cfg := Defaults.(todo := Download, streamingLink := false));
    var st2 := Start.(cfg := Defaults.(todo := Download, streamingLink := true));
    assert Step(env, Start, "-d") == Ok(st1);
    assert Step(env, st1, "-s") == Ok(st2);
    assert Args.Fold(env, st1, ["-s"]) == Ok(st2);
    assert ["-d", "-s"][1..] == ["-s"];
  }

  /** The hints `-g` alone leaves the YouTube resolver. */
  lemma GetHints()
    ensures HintsFor(Youtube, Defaults.(todo := GetLink)) == Hints(None, Some(0), Some("avc"), Some("opus"), Some(true))
  {
  }

  /** `titan -g https://youtu.be/abc123`: the YouTube resolver is asked
      for `youtu.be/abc123` with the YouTube hints (default resolution,
      codecs and DASH preference), and the video and audio links it returns
      are printed in that order. */
  lemma GetYoutubeLinks(env: Env, url: string, v: Vid, os: string, mpvAvailable: bool, isEmoji: char -> bool, mergeOk: bool)
    requires url == "https://youtu.be/abc123"
    requires env.resolve(Youtube, "youtu.be/abc123", Hints(None, Some(0), Some("avc"), Some("opus"), Some(true))) == Ok(v)
    requires v.vidLink != [] && v.audioLink.Some?
    ensures Run(env, ["-g", url], os, mpvAvailable, isEmoji, mergeOk) == PrintLinks([v.vidLink, v.audioLink.value])
  {
    YoutuBeRoutes();
    assert IsLink(url) by {
      assert StartsWith(url, "https://");
      assert "https://" in ["https://", "http://"];
    }
    GetHints();
    GetBothLinks(env, url, Youtube, v, os, mpvAvailable, isEmoji, mergeOk);
  }
}
