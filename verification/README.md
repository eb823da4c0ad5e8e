# titan, modelled in Dafny

titan is a command-line front end that takes a video page URL from one of
eighteen sites (YouTube and its mirrors, Reddit, Twitter/Nitter, Odysee,
Rumble, Substack, ...). It resolves the page to direct stream links and then
does one of four things:
- prints those links (`-g`);
- plays them in mpv, or hands them to the mpv Android app through `am` (`-p`, `-m`, `-sp=`);
- downloads them with aria2 and merges the streams with ffmpeg (`-d`);
- dumps the resolved record (no action flag).

This project models the logic of `src/main.rs` as pure functions over
immutable data. Every process launch is a returned value, and every outcome the
program cannot know in advance is a parameter. That covers:
- the site resolvers;
- the operating system;
- whether mpv is installed;
- whether the ffmpeg merge succeeds;
- which characters are emoji;
- how the `f32` speed parses and prints.

The modules follow the program:

- `Text`: the `str` operations the program uses (`starts`, `contains`, `trim_start_matches`, `trim_end_matches`, `replace`, `split_once`, `rsplit_once`).
- `Sanitizer`: `remove_multiple_spaces` and `remove_emojis`, with `char::is_whitespace` given concretely as the Unicode White_Space set.
- `Classifier`: the scheme/`www.` stripping, the alias tables and the eighteen-way dispatch chain. It has two readings: as written (`Dispatch`), and as a first-match rule table (`Classify`).
- `Media`: the `Vid` record and `Vid::default()`.
- `Numbers`: `str::parse::<u16>` for `-q=`.
- `Args`: one iteration of the argument loop (`Step`), the loop as a fold (`Fold`), and the `no_args` exit (`Parse`).
- `Fold`: what the loop guarantees about settings, warnings and resolver calls.
- `Player`: the `-g` output, the play target, the mpv and `am` argument vectors, and the choice between them.
- `Download`: the extensions, the `--out=` name, and the fetch/merge/clean-up plan of `-d`.
- `Titan`: `main` end to end as written (`Run`), the same with the corrected download plan (`RunCorrected`), and whole-run scenarios.

## Model

| member | source | states |
|---|---|---|
| Text.StartsScan | src/main.rs:633-635 | `starts(prefixes, arg)` is true exactly when some table entry is a prefix of the argument, stated both over table membership and over table positions |
| Text.ContainsIff | src/main.rs:224 | the left-to-right `contains` scan succeeds exactly when the pattern occurs at some position of the fragment |
| Text.TrimStartMatches | src/main.rs:219-222 | the trimmed string no longer starts with the prefix and is no longer than the input |
| Text.TrimStartRemovesCopies | src/main.rs:219-222 | what `trim_start_matches` removed is a whole number of copies of the prefix, so the input is those copies followed by the result |
| Text.TrimEndMatches | src/main.rs:208 | the result is a prefix of the input that does not end in the character, and everything cut off is that character |
| Text.Replace | src/main.rs:599-600 | the length is kept, no occurrence of the replaced character is left (when the two differ), a string without it comes back unchanged, and the only character added is the replacement |
| Text.FirstIndex | src/main.rs:205-206 | the index found holds the character and nothing before it does (the `=` that `split_once` splits at) |
| Text.LastIndex | src/main.rs:595 | there is no index exactly when the character is absent; otherwise the index found holds it and nothing after it does (what `rsplit_once` splits at) |
| Sanitizer.RemoveMultipleSpaces | src/main.rs:655-664 | the result has the same whitespace-separated words as the input; an all-whitespace input comes back unchanged; otherwise the result is collapsed (no leading or trailing whitespace, single `' '` separators); never longer than the input |
| Sanitizer.RemoveMultipleSpacesChars | src/main.rs:655-664 | the only character added is `' '`, and every non-whitespace character of the input survives |
| Sanitizer.DropEmojis | src/main.rs:650 | the regex replacement keeps no emoji and every character that is not one, and leaves an emoji-free string unchanged |
| Sanitizer.DropEmojisCounts | src/main.rs:650 | every non-emoji character is kept as many times as it occurs, and no emoji is |
| Sanitizer.DropEmojisAppend | src/main.rs:650 | the replacement drops a lone emoji, keeps a lone other character, and distributes over concatenation, so the kept characters stay in their order |
| Sanitizer.RemoveEmojisChars | src/main.rs:646-653 | the output holds only `' '` and non-emoji characters of the title; every character that is neither emoji nor whitespace survives; with `' '` not an emoji, the output is emoji-free |
| Sanitizer.WordsEmpty | src/main.rs:656-658 | `split_whitespace` yields nothing exactly for an all-whitespace string, the case that selects the `else` branch |
| Sanitizer.WordsOfJoin | src/main.rs:656-659 | splitting undoes `join(" ")` on whitespace-free words |
| Sanitizer.JoinOfCollapsed | src/main.rs:656-659 | joining undoes splitting on a collapsed string |
| Sanitizer.CollapsedIsFixed | src/main.rs:655-664 | a collapsed string passes through `remove_multiple_spaces` unchanged |
| Sanitizer.RemoveMultipleSpacesIdempotent | src/main.rs:655-664 | `remove_multiple_spaces` is idempotent |
| Sanitizer.RemoveEmojisIdempotent | src/main.rs:646-653 | `remove_emojis` is idempotent whenever the space that `join` inserts is not an emoji |
| Classifier.Fragment | src/main.rs:219-222 | the fragment does not start with `www.` and is no longer than the URL |
| Classifier.FragmentStripsPrefixes | src/main.rs:219-222 | the URL is some copies of `https://`, then some of `http://`, then some of `www.`, followed by the fragment, and each run is as long as it goes: what follows it does not start with another copy |
| Classifier.RulesAsWritten0 | src/main.rs:224-229 | rules 0-2 of the table fire exactly on the tests of the substack, streamhub and streamvid branches |
| Classifier.RulesAsWritten1 | src/main.rs:230-235 | rules 3-5 fire exactly on the tests of the streamtape, streamdav and wolfstream branches |
| Classifier.RulesAsWritten2 | src/main.rs:236-241 | rules 6-8 fire exactly on the tests of the spotify, bitchute and rumble branches |
| Classifier.RulesAsWritten3 | src/main.rs:242-247 | rules 9-11 fire exactly on the tests of the odysee, youtube (infix or alias) and reddit branches |
| Classifier.RulesAsWritten4 | src/main.rs:248-254 | rules 12-14 fire exactly on the tests of the twatter (alias or `unofficialbird.com/`), doodstream and vtube branches |
| Classifier.RulesAsWritten5 | src/main.rs:255-260 | rules 15-17 fire exactly on the tests of the libsyn, mp4upload and rokfin branches |
| Classifier.FirstMatchIsEarliest | src/main.rs:224-264 | a first-match table routes to the earliest firing rule, whatever later rules say |
| Classifier.FirstMatchUnsupported | src/main.rs:224-264 | a first-match table answers Unsupported exactly when no rule fires |
| Classifier.EarlyRules | src/main.rs:224-235 | the first six branches of the chain behave as rules 0-5 tried in order |
| Classifier.MiddleRules | src/main.rs:236-247 | the next six branches behave as rules 6-11 tried in order |
| Classifier.LateRules | src/main.rs:248-264 | the last six branches and the final `else` behave as rules 12-17 tried in order, then Unsupported |
| Classifier.DispatchIsFirstMatch | src/main.rs:224-264 | the `if`/`else if` chain as written routes every fragment exactly as the first-match reading of the rule table |
| Classifier.DispatchUnsupportedIff | src/main.rs:224-264 | the chain reaches its unsupported-link exit exactly when none of the eighteen site tests accepts the fragment |
| Classifier.DispatchPicksEarliest | src/main.rs:224-264 | when site test k accepts and no earlier one does, the chain calls resolver k |
| Classifier.YoutubeFirst | src/main.rs:224-245 | a short fragment starting with `n` or `y` that passes the YouTube test is routed to YouTube, since no earlier test accepts it |
| Classifier.InfixOutranksAlias | src/main.rs:244-249 | `n.` is a Nitter alias, yet `n.youtube.com/` goes to YouTube: an alias does not decide the route on its own |
| Classifier.YoutuBeRoutes | src/main.rs:219-245 | `https://youtu.be/abc123` becomes the fragment `youtu.be/abc123`, which is routed to YouTube |
| Numbers.ParseU16 | src/main.rs:203-209 | a parsed value is the denotation of an optional `+` followed by one or more digits; conversely, every such argument whose value is below 65536 parses to that value; an argument starting with anything else fails |
| Numbers.ParseShow | src/main.rs:203-209 | every `u16` written in decimal, with or without a leading `+`, parses back to itself |
| Args.ExitCode | src/main.rs:174-180 | exit status 0 is given exactly for help and version; every other stop exits 1 |
| Args.EqualsIn | src/main.rs:183-184 | an argument accepted by a `key=` guard contains `=`, so the `unwrap` after `split_once`/`rsplit_once` cannot fail |
| Args.ArmFromFirst | src/main.rs:173-216 | the earliest `match` arm whose guard accepts the argument decides what the argument does |
| Args.ArmFromNone | src/main.rs:217-273 | when no flag arm accepts, a `https://`/`http://` argument takes the URL arm and anything else the invalid-argument arm |
| Args.LinkArmOf | src/main.rs:217 | every URL argument reaches the URL arm, since every flag spelling starts with `-` |
| Args.FlagArm | src/main.rs:173-202 | a flag given in its short spelling, which no earlier arm accepts, selects its own arm |
| Args.Link | src/main.rs:217-269 | a URL after the first resolution only sets `multiple_links` and logs the warning if it was unset; while `vid` is the default, the fragment is classified and the resolver called with the current settings' hints, and the arm fails exactly on an unsupported fragment or a failed resolver |
| Fold.FoldAppend | src/main.rs:170-275 | folding two argument lists in turn is folding their concatenation; an early exit stops the fold |
| Fold.FoldLast | src/main.rs:170-275 | a setting that each argument either sets or leaves alone ends with the value the last argument that sets it gives |
| Fold.LastOfSwitch | src/main.rs:187-201 | a switch that arguments can only turn on ends on exactly when some argument turns it on |
| Fold.LinkKeepsSettings | src/main.rs:217-269 | a URL argument never changes the settings |
| Fold.StepTodo | src/main.rs:181-198 | one argument sets the action exactly when it is `-g`, `-p`, `-sp=`, `-m` or `-d`, and to the action it names |
| Fold.StepStreaming | src/main.rs:195-200 | one argument clears `streaming_link` on `-d`/`-D`, sets it on `-s`, and otherwise keeps it |
| Fold.StepAudioOnly | src/main.rs:187-191 | `-a` and `-m` turn audio-only on; nothing else changes it |
| Fold.StepLoop | src/main.rs:188-191 | `-l` and `-m` turn looping on; nothing else changes it |
| Fold.StepDash | src/main.rs:201 | `-c` turns DASH off; nothing else changes it |
| Fold.StepResolution | src/main.rs:202-210 | `-b` resets the resolution to 0, `-q=` sets it to the parsed value, and nothing else changes it |
| Fold.StepVidCodec | src/main.rs:211-213 | `-vc=` sets the video codec to what follows the first `=`; nothing else changes it |
| Fold.StepAudioCodec | src/main.rs:214-216 | `-ac=` sets the audio codec to what follows the first `=`; nothing else changes it |
| Fold.StepSpeed | src/main.rs:183-192 | `-sp=` sets the speed to what follows the last `=`, `-m` sets it to 1, and nothing else changes it |
| Fold.LastFlagDecides | src/main.rs:170-216 | after the loop, the action is the one the last of `-g`/`-p`/`-sp=`/`-m`/`-d` names (Debug if none), `streaming_link` is decided by the last of `-d`/`-D`/`-s` (on if none), and resolution, codecs and speed are decided by their last flag |
| Fold.SwitchesSetIffPresent | src/main.rs:187-201 | audio-only ends on exactly when some `-a`/`-m` was given, looping exactly when some `-l`/`-m` was, and DASH ends off exactly when some `-c` was |
| Fold.StepLinks | src/main.rs:217-269 | a non-URL argument leaves the record, flag and log alone; a later URL at most logs the warning; the first URL logs the resolver call made with the current settings |
| Fold.FoldWarnedOnce | src/main.rs:265-268 | the count of logged warnings stays equal to the `multiple_links` flag across the loop |
| Fold.WarningAtMostOnce | src/main.rs:265-268 | however many URLs are given, the multiple-links warning is printed at most once, and exactly when `multiple_links` ends set |
| Fold.FoldResolvedOnce | src/main.rs:218 | with resolvers that never return `Vid::default()`, one resolver call has been made exactly when `vid` is no longer the default |
| Fold.AtMostOneResolution | src/main.rs:218 | with such resolvers, a successful parse calls a resolver at most once |
| Fold.ResolverSeesSettingsAsTheyStand | src/main.rs:217-260 | every resolver call was made on the fragment of some URL argument, routed by the classifier, with the hints the settings held when the loop reached that argument, while `vid` was still the default |
| Fold.CallFromStep | src/main.rs:217-260 | a call that appears after one step was made by that step, on its URL's fragment, with the hints of the settings before it |
| Fold.DefaultUntilFirstLink | src/main.rs:218 | with resolvers that never return the default, `vid` is still the default after a successful loop exactly when no argument was a URL |
| Fold.DefaultAfterStep | src/main.rs:217-218 | one step keeps the default record exactly when it held it and the argument is not a URL |
| Fold.OnlyFirstLinkResolved | src/main.rs:217-268 | any resolver call was made on the fragment of the first URL argument |
| Fold.NoArgsIff | src/main.rs:277-280 | the run stops with "No args provided" exactly when there are no arguments, and then exits 1 |
| Player.LinkSelection | src/main.rs:288-309 | with audio and audio-only, `-g` prints only the audio link and play targets it without `--audio-file`; with audio and no audio-only, `-g` prints video then audio and play targets the video with `--audio-file`, or the audio when the video link is empty; with no audio link the video link is non-empty and is both printed and played; the played link is always one of the printed ones |
| Player.MpvArgsRoundTrip | src/main.rs:346-389 | the mpv argument vector reads back as exactly the request: target, title, user agent, referrer, then in order each of speed, loop, audio file and chapters only when applicable, then `--no-video` for audio or the terminal/window switches for video |
| Player.PlayCommandChoice | src/main.rs:311-389 | the `am` path is taken exactly on Android when not audio-only or mpv is missing, and then views the play target; otherwise the program is `mpv.exe` on Windows and `mpv` elsewhere and its arguments carry the request; without audio-only the mpv probe does not matter |
| Download.ExtensionInference | src/main.rs:393-414 | the video extension is `mkv` exactly when a codec starting with `vp9` is known, else `mp4`; audio is `opus` exactly for the codec `opus`, `m4a` exactly for one starting with `mp4a`, else `mp3`; an absent codec matches nothing |
| Download.CutTitle | src/main.rs:593-598 | a title of at most 201 characters is kept; a longer one is cut to the part before the last space of its first 201 characters, or to those 201 when they have no space |
| Download.FormatTitle | src/main.rs:592-604 | the formatted title is at most 201 characters and contains neither `/` nor a newline |
| Download.FormatTitleFixedIff | src/main.rs:592-604 | the formatting leaves a title unchanged exactly when it is at most 201 characters, has no `/` and no newline, does not end in `.`, and is all whitespace or already has single spaces between words and none at either end |
| Download.OutNameHasNoSlash | src/main.rs:588-606 | the `--out=` name has no `/` (aria2 never writes outside the working directory) when the tag, chapter note and extension have none |
| Download.FetchOutsHaveNoSlash | src/main.rs:407-512 | no name aria2 is told to write in the `-d` action contains `/` |
| Download.Fetches | src/main.rs:407-512 | the `-d` action downloads one or two files |
| Download.FetchBranches | src/main.rs:407-512 | audio-only with an audio link downloads the audio link alone; separate streams download video then audio; otherwise the video link alone, including audio-only without an audio link |
| Download.ReadInputs | src/main.rs:466-489 | reading ffmpeg's arguments back: the leading `-i <file>` pairs give the input files in order, and what remains is the suffix after the last pair, which does not start another pair |
| Download.InputArgsRoundTrip | src/main.rs:466-489 | the `-i` pairs built for a list of inputs read back as exactly that list, in order, leaving the arguments that follow |
| Download.CommandOf | src/main.rs:609-622 | a download starts `aria2c` with the link, the seven tuning flags, `--out=` and the name, then the user agent and the referrer; a merge starts `ffmpeg`, whose `-i` inputs read back as the plan's inputs in order with the chapters file last, followed by `-c copy -y` and the output (lines 427-431, 485-489 and 520-524); a removal starts no process |
| Download.PlanDownloadsFirst | src/main.rs:407-535 | the plan starts with its downloads and has no other downloads |
| Download.PlanMerge | src/main.rs:407-535 | an ffmpeg merge follows the downloads exactly when it is needed: always for separate streams, whose two intermediates merge into `<title>.<video ext>` with the optional chapters, and otherwise only when a chapters file exists, adding it to the one download and writing `<title>.<audio ext>` when that is the audio link and `<title>.<video ext>` when it is the video link |
| Download.PlanCleanUp | src/main.rs:407-535 | the intermediates are removed, each once and in order, after the merge, exactly when the merge succeeded, and nothing follows |
| Download.FormattedStemNamesFetches | src/main.rs:588-606 | once the intermediates are named from the formatted title, they are exactly the `--out=` names of the downloads |
| Download.PlanReadsOnlyFetched | src/main.rs:407-535 | in the corrected plan, every file a merge reads (the chapters file aside) and every file removed was written by an earlier download |
| Download.AsWrittenMergeMissesFetch | src/main.rs:457-460 | in the plan as written, a title that still holds `/` after emoji removal makes a needed merge read a file no download wrote |
| Download.AsWrittenCounterexample | src/main.rs:457-460 | the title `AC/DC` with separate video and audio streams is such a run |
| Download.NamesCoincide | src/main.rs:592-604 | when the emoji-free title is at most 201 characters, not all whitespace, has no `/` and does not end in `.`, the formatting is the identity and the plan as written equals the corrected plan |
| Titan.CorrectionOnlyTouchesDownloads | src/main.rs:282-541 | the run as written and the corrected run download exactly when the arguments parse to a record with a link and the download action; they then run the plan as written and the corrected plan respectively, and otherwise have the same outcome |
| Titan.CorrectedRunReadsOnlyFetched | src/main.rs:392-537 | in the corrected run, every file a merge reads (the chapters file aside) and every file removed was written by an earlier download |
| Titan.RunsAgreeWhenNamesCoincide | src/main.rs:392-537 | when the parsed record's emoji-free title already has the formatted shape, the run as written and the corrected run have the same outcome |
| Titan.LinkGuard | src/main.rs:282-285 | a parsed run exits 1 with "No video or audio link found" exactly when the record has neither link, and every action sees a link |
| Titan.ExitCodes | src/main.rs:174-285 | a run that stops exits 0 exactly after help or version, and 1 otherwise |
| Titan.NoArgumentsExitOne | src/main.rs:277-280 | a run with no arguments exits 1 |
| Titan.HelpFirst | src/main.rs:174-176 | `-h`/`--help` as the first argument exits 0 whatever follows |
| Titan.UnsupportedLinkExits | src/main.rs:261-264 | a lone URL no site test accepts exits 1, naming its fragment |
| Titan.FirstLinkStep | src/main.rs:217-260 | the first URL replaces the default record with the resolver's answer and logs the call with the current hints |
| Titan.SecondLinkIgnored | src/main.rs:265-268 | with two URLs, the first is resolved and the second only logs the warning |
| Titan.GetBothLinks | src/main.rs:289-292 | `-g URL` on a site with separate streams prints the video link, then the audio link |
| Titan.GetAudioLink | src/main.rs:289-294 | `-g -a URL` prints only the audio link |
| Titan.DownloadRun | src/main.rs:195-198 | `-d URL` resolves with the streaming-link hint off; the run as written then runs the plan as written for the whole record, and the corrected run runs the corrected plan |
| Titan.MusicRun | src/main.rs:189-194 | `-m URL` on a desktop with mpv plays the audio link, audio only, looped, at speed 1 |
| Titan.LaterStreamLinkWins | src/main.rs:195-200 | after `-d -s` the action is still Download but `streaming_link` is on again |
| Titan.GetYoutubeLinks | src/main.rs:244-245 | `titan -g https://youtu.be/abc123` asks the YouTube resolver about `youtu.be/abc123` with the default hints and prints both links |

## Left out

- The site resolvers (`src/extractors`, `src/helpers`) are not part of this model. They scrape web pages, so they are the parameter `Env.resolve`. That parameter is a function of the resolver, the fragment and the hints the code passes. Their `?` errors are modelled as a stop with exit 1.
- The `f32` speed is not modelled. Parsing `-sp=` is the parameter `Env.parseSpeed`, which can fail. The parsed value is kept only as zero or non-zero, together with the string mpv gets after `--speed=`. `-m` is modelled as the non-zero speed printing as `1`.
- The emoji regex (`Emoji_Presentation`, `Emoji_Modifier_Base`, `Emoji_Modifier`) is the parameter `isEmoji`.
- Titles are sequences of characters, and one character counts as one byte. Rust's `len()` counts UTF-8 bytes, and `&vid_title[..201]` panics when byte 201 is not on a character boundary. Neither is modelled.
- Process execution is not modelled: the output, exit status and spawn failures of `aria2c`, `ffmpeg`, `mpv`, `am` and `sh -c "command -v mpv"`. This includes the `expect` panics and the `?` on the mpv probe. Each launch is a returned command. The mpv probe is the boolean `mpvAvailable`, and the ffmpeg status is the boolean `mergeOk`. The status of `aria2c` is only printed, and nothing depends on it.
- `remove_file` failures only print a message, so a removal is a plan step.
- Printing, colours and the help and version texts are not modelled. `Debug` output is the outcome `ShowVid`, and `-g` output is the list of lines printed.
- `std::env::consts::OS` is the parameter `os`.
- The eighteen per-site claims ("every alias of a site, followed by anything, routes to that site") are not stated as lemmas. Because the infix tests come first, several of them are false as stated (see `Classifier.InfixOutranksAlias`). The routing itself is modelled exactly, by `Classifier.DispatchIsFirstMatch` and the `RulesAsWritten` lemmas.

## Findings

| source | as written | input that shows it | evidently intended | confidence | as-written member | corrected member |
|---|---|---|---|---|---|---|
| src/main.rs:457-460 | ffmpeg is given intermediate names built from the emoji-free title without the formatting `download` applied to the `--out=` name. The same happens at lines 422-423 and 515-516. | title `AC/DC` with separate video and audio streams: aria2 writes `AC\|DC video.mp4`, and ffmpeg reads `AC/DC video.mp4` | the merge and the clean-up use the names aria2 wrote | not executed | Download.AsWrittenMergeMissesFetch | Download.PlanReadsOnlyFetched |

The same mismatch also affects titles longer than 201 characters, titles with newlines or runs of whitespace, and titles ending in `.`. `Download.NamesCoincide` gives the conditions under which the two namings agree. `Download.AsWrittenCounterexample` exhibits the input above. `Titan.Run` models `main` as written, with `Download.PlanAsWritten`. `Titan.RunCorrected` is the same run with the corrected `Download.Plan`; `Titan.CorrectionOnlyTouchesDownloads` shows that the two differ only in the download plan, and `Titan.CorrectedRunReadsOnlyFetched` carries the corrected property to the whole run.

Where the source and its description differ, the model follows the source:
- A merge runs even without a separate audio stream whenever a chapters file is present.
- A URL is not routed to a site merely because it begins with one of that site's aliases. The earlier `contains` tests come first.
