/** The `-d` action (src/main.rs:390-535) and its helper `download`
    (src/main.rs:574-631): container extensions inferred from the codecs,
    the file name aria2 is told to write, and the fetch, merge and clean-up
    steps, with the outcome of the merge as an input. */
module Download {
  import opened Wrappers
  import opened Text
  import opened Sanitizer
  import opened Media
  import opened Player

  /** `some_codec_matches` (src/main.rs:665-675): a prefix test or an exact
      comparison, and never a match when the codec is unknown. */
  function CodecMatches(codec: Option<string>, m: string, prefix: bool): bool
  {
    match codec
    case None => false
    case Some(c) => if prefix then StartsWith(c, m) else c == m
  }

  function VideoExt(vidCodec: Option<string>): string
  {
    if CodecMatches(vidCodec, "vp9", true) then "mkv" else "mp4"
  }

  function AudioExt(audioCodec: Option<string>): string
  {
    if CodecMatches(audioCodec, "opus", false) then "opus"
    else if CodecMatches(audioCodec, "mp4a", true) then "m4a"
    else "mp3"
  }

  /** src/main.rs:393-414: `mkv` exactly for a codec starting with `vp9`;
      `opus` exactly for the codec `opus`, `m4a` for one starting with
      `mp4a`, `mp3` for anything else, an unknown codec included. */
  lemma ExtensionInference(vidCodec: Option<string>, audioCodec: Option<string>)
    ensures VideoExt(vidCodec) == "mkv" <==> vidCodec.Some? && StartsWith(vidCodec.value, "vp9")
    ensures VideoExt(vidCodec) != "mkv" <==> VideoExt(vidCodec) == "mp4"
    ensures AudioExt(audioCodec) == "opus" <==> audioCodec == Some("opus")
    ensures AudioExt(audioCodec) == "m4a" <==> audioCodec.Some? && StartsWith(audioCodec.value, "mp4a")
    ensures AudioExt(audioCodec) == "mp3" <==>
      audioCodec.None? || (audioCodec.value != "opus" && !StartsWith(audioCodec.value, "mp4a"))
    ensures vidCodec.None? ==> VideoExt(vidCodec) == "mp4"
    ensures audioCodec.None? ==> AudioExt(audioCodec) == "mp3"
  {
    if audioCodec == Some("opus") {
      assert !StartsWith("opus", "mp4a") by { assert "opus"[0] != "mp4a"[0]; }
    }
  }

  // ---------------------------------------------------------------------
  // The `--out=` file name

  /** A title over 201 characters is cut to its first 201, and then to the
      part before the last space among them, if there is one
      (src/main.rs:593-598). */
  function CutTitle(t: string): (r: string)
    ensures |r| <= 201 && r <= t
    ensures |t| <= 201 ==> r == t
    ensures |t| > 201 ==>
      || (r + " " <= t[..201] && ' ' !in t[|r| + 1..201])
      || (r == t[..201] && ' ' !in r)
  {
    if |t| > 201 then
      var head := t[..201];
      match LastIndex(head, ' ')
      case Some(i) =>
        assert head[..i] + " " == head[..i + 1];
        head[..i]
      case None => head
    else t
  }

  /** The title part of the `--out=` name (src/main.rs:592-604): cut,
      newlines to spaces, `/` to `|`, trailing dots dropped, whitespace
      collapsed. It is at most 201 characters long and names no directory. */
  function FormatTitle(t: string): (r: string)
    ensures |r| <= 201
    ensures '/' !in r && '\n' !in r
  {
    var cut := CutTitle(t);
    var s := TrimEndMatches(Replace(Replace(cut, '\n', ' '), '/', '|'), '.');
    var r := RemoveMultipleSpaces(s);
    assert '\n' !in s && '/' !in s by {
      var s1 := Replace(cut, '\n', ' ');
      var s2 := Replace(s1, '/', '|');
      assert forall i :: 0 <= i < |s| ==> s[i] == s2[i];
    }
    RemoveMultipleSpacesChars(s);
    r
  }

  /** The name `download` passes as `--out=` (src/main.rs:588-606): the
      formatted title, the `types` tag (dropped when the title is not
      formatted and there is no chapter note), the chapter note, and the
      extension. */
  function OutName(noEmoji: string, types: string, formatTitle: bool, chapter: string, ext: string): string
  {
    FormatTitle(noEmoji) + (if !formatTitle && chapter == [] then [] else types) + chapter + "." + ext
  }

  // ---------------------------------------------------------------------
  // The plan

  /** One step of the `-d` action: an aria2 download, an ffmpeg merge of
      downloaded files (plus an optional chapters file), or the removal of
      a downloaded file. */
  datatype PlanStep =
    | Fetch(link: string, out: string, userAgent: string, referrer: string)
    | Merge(inputs: seq<string>, chapters: Option<string>, output: string)
    | Remove(path: string)

  const Aria2Flags: seq<string> := [
    "--max-connection-per-server=16",
    "--max-concurrent-downloads=16",
    "--split=16",
    "--min-split-size=1M",
    "--check-certificate=false",
    "--summary-interval=0",
    "--download-result=hide"
  ]

  /** The `-i <file>` pairs that name ffmpeg's inputs, in order. */
  function InputArgs(inputs: seq<string>): seq<string>
  {
    if inputs == [] then [] else ["-i", inputs[0]] + InputArgs(inputs[1..])
  }

  /** Reads the leading `-i <file>` pairs of an argument list back: the
      files in order, and the arguments after the last pair. */
  function ReadInputs(args: seq<string>): (r: (seq<string>, seq<string>))
    ensures |args| == 2 * |r.0| + |r.1| && r.1 == args[2 * |r.0|..]
    ensures forall k :: 0 <= k < |r.0| ==> args[2 * k] == "-i" && args[2 * k + 1] == r.0[k]
    ensures !(|r.1| >= 2 && r.1[0] == "-i")
    decreases |args|
  {
    if |args| >= 2 && args[0] == "-i" then
      var (files, rest) := ReadInputs(args[2..]);
      assert forall k :: 1 <= k <= |files| ==> args[2 * k] == args[2..][2 * (k - 1)];
      ([args[1]] + files, rest)
    else ([], args)
  }

  /** Reading the pairs back yields the input files and leaves what follows
      them, provided that does not itself start with `-i`. */
  lemma {:induction false} InputArgsRoundTrip(inputs: seq<string>, rest: seq<string>)
    requires rest == [] || rest[0] != "-i"
    ensures ReadInputs(InputArgs(inputs) + rest) == (inputs, rest)
    decreases |inputs|
  {
    if inputs == [] {
      assert InputArgs(inputs) + rest == rest;
    } else {
      var x, xs := inputs[0], inputs[1..];
      var tail := InputArgs(xs) + rest;
      calc {
        ReadInputs(InputArgs(inputs) + rest);
        { InputArgsCons(x, InputArgs(xs), rest); }
        ReadInputs(["-i", x] + tail);
        { ReadInputsCons(x, tail); }
        ([x] + ReadInputs(tail).0, ReadInputs(tail).1);
        { InputArgsRoundTrip(xs, rest); }
        ([x] + xs, rest);
        { assert [x] + xs == inputs; }
        (inputs, rest);
      }
    }
  }

  lemma InputArgsCons(x: string, more: seq<string>, rest: seq<string>)
    ensures (["-i", x] + more) + rest == ["-i", x] + (more + rest)
  {
  }

  lemma ReadInputsCons(x: string, tail: seq<string>)
    ensures ReadInputs(["-i", x] + tail) == ([x] + ReadInputs(tail).0, ReadInputs(tail).1)
  {
    assert (["-i", x] + tail)[2..] == tail;
  }

  /** The process a launching step starts. A download runs aria2 on the
      link with the fixed tuning flags, then `--out=` with the file name,
      then the user agent and the referrer (src/main.rs:609-622). A merge
      runs ffmpeg with one `-i` per input in plan order, the chapters file
      as the last input, then a stream copy overwriting the output
      (src/main.rs:427-431, 466-489, 520-524). A removal starts no
      process. */
  function CommandOf(s: PlanStep): (r: Option<Command>)
    ensures r.None? <==> s.Remove?
    ensures s.Fetch? ==>
      && r.value.program == "aria2c" && |r.value.args| == 13
      && r.value.args[0] == s.link && r.value.args[1..8] == Aria2Flags
      && r.value.args[8..] == ["--out=" + s.out, "--user-agent", s.userAgent, "--referer", s.referrer]
    ensures s.Merge? ==>
      && r.value.program == "ffmpeg"
      && ReadInputs(r.value.args) ==
           (s.inputs + (if s.chapters.Some? then [s.chapters.value] else []), ["-c", "copy", "-y", s.output])
  {
    match s
    case Fetch(link, out, ua, referrer) =>
      Some(Command("aria2c", [link] + Aria2Flags + ["--out=" + out, "--user-agent", ua, "--referer", referrer]))
    case Merge(inputs, chapters, output) =>
      var all := inputs + (match chapters case Some(c) => [c] case None => []);
      InputArgsRoundTrip(all, ["-c", "copy", "-y", output]);
      Some(Command("ffmpeg", InputArgs(all) + ["-c", "copy", "-y", output]))
    case Remove(_) => None
  }

  /** The call `download(vid, no_emoji, link, types, ext, format_title,
      chapter)` as a step. */
  function FetchOf(vid: Vid, noEmoji: string, link: string, types: string, ext: string, formatTitle: bool, chapter: string): PlanStep
  {
    Fetch(link, OutName(noEmoji, types, formatTitle, chapter, ext), vid.userAgent, vid.referrer)
  }

  /** The video and audio streams are separate and both are wanted. */
  predicate SeparateStreams(vid: Vid, audioOnly: bool)
  {
    vid.audioLink.Some? && !audioOnly
  }

  /** ffmpeg runs: for separate streams always, otherwise only to add a
      chapters file. */
  predicate MergeNeeded(vid: Vid, audioOnly: bool)
  {
    SeparateStreams(vid, audioOnly) || vid.chapterFile.Some?
  }

  function ChapterNote(vid: Vid): string
  {
    if vid.chapterFile.Some? then " without chapters" else ""
  }

  /** The downloads of the three branches of the `-d` action
      (src/main.rs:407-535): video then audio for separate streams, the
      audio alone when only audio is wanted and there is an audio link,
      the video link otherwise. */
  function Fetches(vid: Vid, audioOnly: bool, noEmoji: string): (r: seq<PlanStep>)
    ensures 1 <= |r| <= 2 && forall i :: 0 <= i < |r| ==> r[i].Fetch?
  {
    var vidExt, chapter := VideoExt(vid.vidCodec), ChapterNote(vid);
    match vid.audioLink
    case Some(audio) =>
      var audioExt := AudioExt(vid.audioCodec);
      if audioOnly then [FetchOf(vid, noEmoji, audio, " audio", audioExt, false, chapter)]
      else
        [ FetchOf(vid, noEmoji, vid.vidLink, " video", vidExt, true, chapter),
          FetchOf(vid, noEmoji, audio, " audio", audioExt, true, chapter)]
    case None => [FetchOf(vid, noEmoji, vid.vidLink, " video", vidExt, false, chapter)]
  }

  /** The names under which the merge reads the downloads, and the clean-up
      removes them: `stem`, the type tag, the chapter note and the
      extension (src/main.rs:422-423, 457-460, 515-516). The program uses
      the emoji-free title as the stem. */
  function Intermediates(vid: Vid, audioOnly: bool, stem: string): seq<string>
  {
    var chapter := ChapterNote(vid);
    var vidTitle := stem + " video" + chapter + "." + VideoExt(vid.vidCodec);
    var audioTitle := stem + " audio" + chapter + "." + AudioExt(vid.audioCodec);
    if SeparateStreams(vid, audioOnly) then [vidTitle, audioTitle]
    else if vid.audioLink.Some? then [audioTitle]
    else [vidTitle]
  }

  /** The ffmpeg merge, if any: the intermediates plus the chapters file
      into `<title>.<ext>`, named after the raw title. */
  function Merges(vid: Vid, audioOnly: bool, stem: string): seq<PlanStep>
  {
    var ext := if vid.audioLink.Some? && audioOnly then AudioExt(vid.audioCodec) else VideoExt(vid.vidCodec);
    if MergeNeeded(vid, audioOnly) then [Merge(Intermediates(vid, audioOnly, stem), vid.chapterFile, vid.title + "." + ext)]
    else []
  }

  /** The clean-up: the intermediates are removed after a successful
      merge, and only then. */
  function Removes(vid: Vid, audioOnly: bool, stem: string, mergeOk: bool): seq<PlanStep>
  {
    var names := Intermediates(vid, audioOnly, stem);
    if MergeNeeded(vid, audioOnly) && mergeOk then seq(|names|, k requires 0 <= k < |names| => Remove(names[k]))
    else []
  }

  /** The whole `-d` action. `mergeOk` is ffmpeg's exit status; the
      download's own status is never consulted. */
  function PlanFrom(vid: Vid, audioOnly: bool, noEmoji: string, stem: string, mergeOk: bool): seq<PlanStep>
  {
    Fetches(vid, audioOnly, noEmoji) + Merges(vid, audioOnly, stem) + Removes(vid, audioOnly, stem, mergeOk)
  }

  /** The plan as src/main.rs writes it: intermediates named after the
      emoji-free title itself. */
  function PlanAsWritten(vid: Vid, audioOnly: bool, isEmoji: char -> bool, mergeOk: bool): seq<PlanStep>
  {
    var noEmoji := RemoveEmojis(vid.title, isEmoji);
    PlanFrom(vid, audioOnly, noEmoji, noEmoji, mergeOk)
  }

  /** The plan with intermediates named as aria2 actually wrote them. */
  function Plan(vid: Vid, audioOnly: bool, isEmoji: char -> bool, mergeOk: bool): seq<PlanStep>
  {
    var noEmoji := RemoveEmojis(vid.title, isEmoji);
    PlanFrom(vid, audioOnly, noEmoji, FormatTitle(noEmoji), mergeOk)
  }

  // ---------------------------------------------------------------------
  // Properties of the plan

  /** The downloads: the audio link alone when only audio is wanted and
      there is one; video then audio for separate streams; the video link
      otherwise. */
  lemma FetchBranches(vid: Vid, audioOnly: bool, noEmoji: string)
    ensures var f := Fetches(vid, audioOnly, noEmoji);
      && f[0].link == (if vid.audioLink.Some? && audioOnly then vid.audioLink.value else vid.vidLink)
      && |f| == (if SeparateStreams(vid, audioOnly) then 2 else 1)
      && (SeparateStreams(vid, audioOnly) ==> f[1].link == vid.audioLink.value)
  {
  }

  /** Downloads, then merges, then removals, laid end to end. */
  lemma Layout(f: seq<PlanStep>, m: seq<PlanStep>, r: seq<PlanStep>)
    requires forall i :: 0 <= i < |f| ==> f[i].Fetch?
    requires forall i :: 0 <= i < |m| ==> m[i].Merge?
    requires forall i :: 0 <= i < |r| ==> r[i].Remove?
    ensures var p := f + m + r;
      && (forall i :: 0 <= i < |p| ==> (p[i].Fetch? <==> i < |f|))
      && (forall i :: 0 <= i < |p| ==> (p[i].Merge? <==> |f| <= i < |f| + |m|))
      && (forall i :: 0 <= i < |p| ==> (p[i].Remove? <==> |f| + |m| <= i))
      && (forall i :: 0 <= i < |f| ==> p[i] == f[i])
      && (forall i :: 0 <= i < |m| ==> p[|f| + i] == m[i])
      && (forall i :: 0 <= i < |r| ==> p[|f| + |m| + i] == r[i])
  {
  }

  /** At most one merge, reading the intermediates. */
  lemma MergeShape(vid: Vid, audioOnly: bool, stem: string)
    ensures var m := Merges(vid, audioOnly, stem);
      && |m| == (if MergeNeeded(vid, audioOnly) then 1 else 0)
      && (forall i :: 0 <= i < |m| ==> m[i].Merge? && m[i].inputs == Intermediates(vid, audioOnly, stem))
  {
  }

  /** The clean-up removes each intermediate, in order, after a successful
      merge, and nothing otherwise. */
  lemma RemoveShape(vid: Vid, audioOnly: bool, stem: string, mergeOk: bool)
    ensures var r, names := Removes(vid, audioOnly, stem, mergeOk), Intermediates(vid, audioOnly, stem);
      && |r| == (if MergeNeeded(vid, audioOnly) && mergeOk then |names| else 0)
      && (forall i :: 0 <= i < |r| ==> r[i] == Remove(names[i]))
  {
  }

  /** The downloads come first: the audio link alone when only audio is
      wanted and there is one, otherwise the video link, followed for
      separate streams by the audio link. */
  lemma PlanDownloadsFirst(vid: Vid, audioOnly: bool, noEmoji: string, stem: string, mergeOk: bool)
    ensures var p, f := PlanFrom(vid, audioOnly, noEmoji, stem, mergeOk), Fetches(vid, audioOnly, noEmoji);
      && (forall i :: 0 <= i < |p| ==> (p[i].Fetch? <==> i < |f|))
      && |f| == (if SeparateStreams(vid, audioOnly) then 2 else 1)
      && p[0].link == (if vid.audioLink.Some? && audioOnly then vid.audioLink.value else vid.vidLink)
      && (SeparateStreams(vid, audioOnly) ==> p[1].link == vid.audioLink.value)
  {
    var f, m, r := Fetches(vid, audioOnly, noEmoji), Merges(vid, audioOnly, stem), Removes(vid, audioOnly, stem, mergeOk);
    FetchBranches(vid, audioOnly, noEmoji);
    MergeShape(vid, audioOnly, stem);
    RemoveShape(vid, audioOnly, stem, mergeOk);
    Layout(f, m, r);
  }

  /** Then the merge, present exactly when needed: always for separate
      streams, which are merged into `<title>.<video ext>`, otherwise only
      to add a chapters file to the one download, written to
      `<title>.<audio ext>` when that download is the audio link and to
      `<title>.<video ext>` when it is the video link. */
  lemma PlanMerge(vid: Vid, audioOnly: bool, noEmoji: string, stem: string, mergeOk: bool)
    ensures var p, f := PlanFrom(vid, audioOnly, noEmoji, stem, mergeOk), Fetches(vid, audioOnly, noEmoji);
      && ((exists i :: 0 <= i < |p| && p[i].Merge?) <==> MergeNeeded(vid, audioOnly))
      && (MergeNeeded(vid, audioOnly) ==> p[|f|].Merge? && p[|f|].inputs == Intermediates(vid, audioOnly, stem))
      && (SeparateStreams(vid, audioOnly) ==>
            p[|f|] == Merge(p[|f|].inputs, vid.chapterFile, vid.title + "." + VideoExt(vid.vidCodec)) &&
            |p[|f|].inputs| == 2)
      && (MergeNeeded(vid, audioOnly) && !SeparateStreams(vid, audioOnly) ==>
            vid.chapterFile.Some? && |p[|f|].inputs| == 1 &&
            p[|f|] == Merge(p[|f|].inputs, vid.chapterFile,
              vid.title + "." + (if vid.audioLink.Some? then AudioExt(vid.audioCodec) else VideoExt(vid.vidCodec))))
  {
    var f, m, r := Fetches(vid, audioOnly, noEmoji), Merges(vid, audioOnly, stem), Removes(vid, audioOnly, stem, mergeOk);
    FetchBranches(vid, audioOnly, noEmoji);
    MergeShape(vid, audioOnly, stem);
    RemoveShape(vid, audioOnly, stem, mergeOk);
    Layout(f, m, r);
    if MergeNeeded(vid, audioOnly) {
      assert (f + m + r)[|f|] == m[0];
    }
  }

  /** Last the clean-up: after a successful merge, and only then, each
      merged intermediate is removed, in order, and nothing else. */
  lemma PlanCleanUp(vid: Vid, audioOnly: bool, noEmoji: string, stem: string, mergeOk: bool)
    ensures var p, f := PlanFrom(vid, audioOnly, noEmoji, stem, mergeOk), Fetches(vid, audioOnly, noEmoji);
      && ((exists i :: 0 <= i < |p| && p[i].Remove?) <==> MergeNeeded(vid, audioOnly) && mergeOk)
      && (MergeNeeded(vid, audioOnly) && mergeOk ==>
            |p| == |f| + 1 + |p[|f|].inputs| &&
            forall k :: 0 <= k < |p[|f|].inputs| ==> p[|f| + 1 + k] == Remove(p[|f|].inputs[k]))
  {
    var f, m, r := Fetches(vid, audioOnly, noEmoji), Merges(vid, audioOnly, stem), Removes(vid, audioOnly, stem, mergeOk);
    MergeShape(vid, audioOnly, stem);
    RemoveShape(vid, audioOnly, stem, mergeOk);
    IntermediatesStartWithStem(vid, audioOnly, stem);
    assert PlanFrom(vid, audioOnly, noEmoji, stem, mergeOk) == f + m + r;
    CleanUpLayout(f, m, r, Intermediates(vid, audioOnly, stem), MergeNeeded(vid, audioOnly), mergeOk);
  }

  /** The clean-up facts for any downloads `f`, at most one merge `m` of
      `names` and the removals `r` of `names`. */
  lemma CleanUpLayout(f: seq<PlanStep>, m: seq<PlanStep>, r: seq<PlanStep>, names: seq<string>, needed: bool, ok: bool)
    requires names != []
    requires forall i :: 0 <= i < |f| ==> f[i].Fetch?
    requires |m| == (if needed then 1 else 0) && forall i :: 0 <= i < |m| ==> m[i].Merge? && m[i].inputs == names
    requires |r| == (if needed && ok then |names| else 0) && forall i :: 0 <= i < |r| ==> r[i] == Remove(names[i])
    ensures var p := f + m + r;
      && ((exists i :: 0 <= i < |p| && p[i].Remove?) <==> needed && ok)
      && (needed && ok ==>
            |p| == |f| + 1 + |p[|f|].inputs| &&
            forall k :: 0 <= k < |p[|f|].inputs| ==> p[|f| + 1 + k] == Remove(p[|f|].inputs[k]))
  {
    Layout(f, m, r);
    if needed {
      assert (f + m + r)[|f|] == m[0];
      if ok {
        assert (f + m + r)[|f| + 1] == r[0];
      }
    }
  }

  /** `x` is the name some download before step `i` wrote. */
  predicate WrittenBefore(p: seq<PlanStep>, i: int, x: string)
  {
    exists j :: 0 <= j < i && j < |p| && p[j].Fetch? && p[j].out == x
  }

  /** Every file a merge reads (its chapters file aside) and every file
      removed was written by an earlier download. */
  predicate ReadsOnlyFetched(p: seq<PlanStep>)
  {
    forall i :: 0 <= i < |p| ==>
      && (p[i].Merge? ==> forall x :: x in p[i].inputs ==> WrittenBefore(p, i, x))
      && (p[i].Remove? ==> WrittenBefore(p, i, p[i].path))
  }

  /** Any plan of downloads, merges of what they wrote and removals of
      what they wrote reads and removes only downloaded files. */
  lemma LayoutReadsOnlyFetched(f: seq<PlanStep>, m: seq<PlanStep>, r: seq<PlanStep>, names: seq<string>)
    requires |names| == |f| && forall k :: 0 <= k < |f| ==> f[k].Fetch? && f[k].out == names[k]
    requires forall i :: 0 <= i < |m| ==> m[i].Merge? && m[i].inputs == names
    requires forall i :: 0 <= i < |r| ==> r[i].Remove? && r[i].path in names
    ensures ReadsOnlyFetched(f + m + r)
  {
    var p := f + m + r;
    Layout(f, m, r);
    forall i | 0 <= i < |p|
      ensures p[i].Merge? ==> forall x :: x in p[i].inputs ==> WrittenBefore(p, i, x)
      ensures p[i].Remove? ==> WrittenBefore(p, i, p[i].path)
    {
      if i >= |f| {
        forall k | 0 <= k < |names| ensures WrittenBefore(p, i, names[k]) {
          assert p[k] == f[k];
        }
      }
    }
  }

  /** When the intermediates are the names aria2 wrote, the plan reads and
      removes only downloaded files. */
  lemma ReadsOnlyFetchedWhenNamesAgree(vid: Vid, audioOnly: bool, noEmoji: string, stem: string, mergeOk: bool)
    requires var f := Fetches(vid, audioOnly, noEmoji); var names := Intermediates(vid, audioOnly, stem);
      MergeNeeded(vid, audioOnly) ==> |names| == |f| && forall k :: 0 <= k < |f| ==> names[k] == f[k].out
    ensures ReadsOnlyFetched(PlanFrom(vid, audioOnly, noEmoji, stem, mergeOk))
  {
    var f, m, r := Fetches(vid, audioOnly, noEmoji), Merges(vid, audioOnly, stem), Removes(vid, audioOnly, stem, mergeOk);
    var names := Intermediates(vid, audioOnly, stem);
    MergeShape(vid, audioOnly, stem);
    RemoveShape(vid, audioOnly, stem, mergeOk);
    if MergeNeeded(vid, audioOnly) {
      LayoutReadsOnlyFetched(f, m, r, names);
    } else {
      var outs := seq(|f|, k requires 0 <= k < |f| => f[k].out);
      LayoutReadsOnlyFetched(f, m, r, outs);
    }
  }

  /** The downloads' `--out=` names, once the stem is the formatted title,
      are exactly the intermediates. */
  lemma FormattedStemNamesFetches(vid: Vid, audioOnly: bool, noEmoji: string)
    ensures var f := Fetches(vid, audioOnly, noEmoji); var names := Intermediates(vid, audioOnly, FormatTitle(noEmoji));
      MergeNeeded(vid, audioOnly) ==> |names| == |f| && forall k :: 0 <= k < |f| ==> names[k] == f[k].out
  {
  }

  /** With intermediates named as aria2 wrote them, merges read and the
      clean-up removes exactly the downloaded files. */
  lemma PlanReadsOnlyFetched(vid: Vid, audioOnly: bool, isEmoji: char -> bool, mergeOk: bool)
    ensures ReadsOnlyFetched(Plan(vid, audioOnly, isEmoji, mergeOk))
  {
    var n := RemoveEmojis(vid.title, isEmoji);
    FormattedStemNamesFetches(vid, audioOnly, n);
    ReadsOnlyFetchedWhenNamesAgree(vid, audioOnly, n, FormatTitle(n), mergeOk);
  }

  lemma NoSlashInName(t: string, tag: string, chapter: string, ext: string)
    requires '/' !in t && '/' !in tag && '/' !in chapter && '/' !in ext
    ensures '/' !in t + tag + chapter + "." + ext
  {
    assert '/' !in ".";
  }

  /** The `--out=` name has no `/` when the tag, note and extension have
      none: the formatted title never does. */
  lemma OutNameHasNoSlash(noEmoji: string, types: string, formatTitle: bool, chapter: string, ext: string)
    requires '/' !in types && '/' !in chapter && '/' !in ext
    ensures '/' !in OutName(noEmoji, types, formatTitle, chapter, ext)
  {
    var tag: string := if !formatTitle && chapter == [] then [] else types;
    NoSlashInName(FormatTitle(noEmoji), tag, chapter, ext);
  }

  lemma SuffixesHaveNoSlash(vid: Vid)
    ensures '/' !in VideoExt(vid.vidCodec) && '/' !in AudioExt(vid.audioCodec) && '/' !in ChapterNote(vid)
    ensures '/' !in " video" && '/' !in " audio"
  {
  }

  /** Nothing aria2 is told to write contains a `/`. */
  lemma FetchOutsHaveNoSlash(vid: Vid, audioOnly: bool, noEmoji: string)
    ensures var f := Fetches(vid, audioOnly, noEmoji);
      forall j :: 0 <= j < |f| ==> '/' !in f[j].out
  {
    var chapter, vext, aext := ChapterNote(vid), VideoExt(vid.vidCodec), AudioExt(vid.audioCodec);
    SuffixesHaveNoSlash(vid);
    var f := Fetches(vid, audioOnly, noEmoji);
    if vid.audioLink.Some? && audioOnly {
      assert f[0].out == OutName(noEmoji, " audio", false, chapter, aext);
      OutNameHasNoSlash(noEmoji, " audio", false, chapter, aext);
    } else if vid.audioLink.Some? {
      assert f[0].out == OutName(noEmoji, " video", true, chapter, vext);
      assert f[1].out == OutName(noEmoji, " audio", true, chapter, aext);
      OutNameHasNoSlash(noEmoji, " video", true, chapter, vext);
      OutNameHasNoSlash(noEmoji, " audio", true, chapter, aext);
    } else {
      assert f[0].out == OutName(noEmoji, " video", false, chapter, vext);
      OutNameHasNoSlash(noEmoji, " video", false, chapter, vext);
    }
  }

  /** Every intermediate name begins with the stem. */
  lemma IntermediatesStartWithStem(vid: Vid, audioOnly: bool, stem: string)
    ensures var names := Intermediates(vid, audioOnly, stem);
      names != [] && forall k :: 0 <= k < |names| ==> stem <= names[k]
  {
    var chapter := ChapterNote(vid);
    var v := stem + " video" + chapter + "." + VideoExt(vid.vidCodec);
    var a := stem + " audio" + chapter + "." + AudioExt(vid.audioCodec);
    assert v[..|stem|] == stem && a[..|stem|] == stem;
  }

  lemma NotWrittenBefore(p: seq<PlanStep>, i: int, x: string)
    requires '/' in x
    requires forall j :: 0 <= j < i && j < |p| && p[j].Fetch? ==> '/' !in p[j].out
    ensures !WrittenBefore(p, i, x)
  {
  }

  /** As written, a title that still has a `/` after emoji removal breaks
      every merge: the merge reads a name with the `/`, while aria2 wrote
      the file with `|` in its place, so no download produced it. */
  lemma AsWrittenMergeMissesFetch(vid: Vid, audioOnly: bool, isEmoji: char -> bool, mergeOk: bool)
    requires '/' in RemoveEmojis(vid.title, isEmoji)
    requires MergeNeeded(vid, audioOnly)
    ensures !ReadsOnlyFetched(PlanAsWritten(vid, audioOnly, isEmoji, mergeOk))
  {
    SlashStemMissesFetch(vid, audioOnly, RemoveEmojis(vid.title, isEmoji), mergeOk);
  }

  lemma SlashStemMissesFetch(vid: Vid, audioOnly: bool, n: string, mergeOk: bool)
    requires '/' in n
    requires MergeNeeded(vid, audioOnly)
    ensures !ReadsOnlyFetched(PlanFrom(vid, audioOnly, n, n, mergeOk))
  {
    var f, m, r := Fetches(vid, audioOnly, n), Merges(vid, audioOnly, n), Removes(vid, audioOnly, n, mergeOk);
    var p := f + m + r;
    var names := Intermediates(vid, audioOnly, n);
    FetchOutsHaveNoSlash(vid, audioOnly, n);
    IntermediatesStartWithStem(vid, audioOnly, n);
    MergeShape(vid, audioOnly, n);
    RemoveShape(vid, audioOnly, n, mergeOk);
    Layout(f, m, r);
    var x := names[0];
    assert '/' in x by {
      var k :| 0 <= k < |n| && n[k] == '/';
      assert x[k] == '/';
    }
    NotWrittenBefore(p, |f|, x);
    assert p[|f|] == m[0] && x in m[0].inputs;
  }

  /** A concrete run that shows it: the title "AC/DC" with separate video
      and audio streams. */
  lemma AsWrittenCounterexample()
    ensures var vid := Vid("uwu", "", "AC/DC", "https://v", None, None, Some("https://a"), None, None);
      !ReadsOnlyFetched(PlanAsWritten(vid, false, c => false, true))
  {
    var vid := Vid("uwu", "", "AC/DC", "https://v", None, None, Some("https://a"), None, None);
    SlashTitleMissesFetch(vid, c => false);
  }

  /** Any record titled `AC/DC` with a separate audio link. */
  lemma SlashTitleMissesFetch(vid: Vid, isEmoji: char -> bool)
    requires vid.title == "AC/DC" && vid.audioLink.Some? && !isEmoji('/')
    ensures !ReadsOnlyFetched(PlanAsWritten(vid, false, isEmoji, true))
  {
    assert '/' in RemoveEmojis(vid.title, isEmoji) by {
      assert '/' in "AC/DC" by { assert "AC/DC"[2] == '/'; }
      assert !IsWhitespace('/');
      RemoveEmojisChars("AC/DC", isEmoji);
    }
    assert MergeNeeded(vid, false) by {
      assert SeparateStreams(vid, false);
    }
    AsWrittenMergeMissesFetch(vid, false, isEmoji, true);
  }

  /** The names aria2 writes and the names ffmpeg reads coincide when the
      emoji-free title is at most 201 characters, is not all whitespace,
      has no `/` and does not end in `.`: the formatting is then the
      identity. */
  lemma NamesCoincide(vid: Vid, audioOnly: bool, isEmoji: char -> bool, mergeOk: bool)
    requires var n := RemoveEmojis(vid.title, isEmoji);
      |n| <= 201 && '/' !in n && !AllWhitespace(n) && n[|n| - 1] != '.'
    ensures FormatTitle(RemoveEmojis(vid.title, isEmoji)) == RemoveEmojis(vid.title, isEmoji)
    ensures PlanAsWritten(vid, audioOnly, isEmoji, mergeOk) == Plan(vid, audioOnly, isEmoji, mergeOk)
  {
    var n := RemoveEmojis(vid.title, isEmoji);
    assert Collapsed(n);
    assert '\n' !in n by {
      forall i | 0 <= i < |n| ensures n[i] != '\n' {
        if IsWhitespace(n[i]) {
          assert n[i] == ' ';
        }
      }
    }
    CollapsedIsFixed(n);
  }

  /** The formatting leaves a title unchanged exactly when the title is at
      most 201 characters, has no `/` and no newline, does not end in `.`,
      and is all whitespace or already collapsed. */
  lemma FormatTitleFixedIff(n: string)
    ensures FormatTitle(n) == n <==>
      && |n| <= 201 && '/' !in n && '\n' !in n
      && (n == [] || n[|n| - 1] != '.')
      && (AllWhitespace(n) || Collapsed(n))
  {
    if |n| <= 201 && '/' !in n && '\n' !in n {
      var s := TrimEndMatches(Replace(Replace(CutTitle(n), '\n', ' '), '/', '|'), '.');
      assert Replace(Replace(CutTitle(n), '\n', ' '), '/', '|') == n;
      assert FormatTitle(n) == RemoveMultipleSpaces(s);
      if n == [] || n[|n| - 1] != '.' {
        assert s == n;
        if Collapsed(n) {
          CollapsedIsFixed(n);
        }
      } else {
        assert |s| < |n|;
      }
    }
  }
}
