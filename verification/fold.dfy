/** What the argument loop guarantees: each setting is decided by the last
    flag that touches it, the resolver sees the settings as they stand when
    the URL is reached, only the first URL is resolved, and the
    multiple-links warning is printed at most once. */
module Fold {
  import opened Wrappers
  import opened Text
  import opened Classifier
  import opened Media
  import opened Numbers
  import opened Args

  // ---------------------------------------------------------------------
  // Last writer wins

  /** The value the last argument with an opinion (`sel(arg).Some?`) gives,
      or `d` when no argument has one: a right-to-left reading of the
      arguments, independent of the left fold. */
  function LastOf<T>(d: T, args: seq<string>, sel: string -> Option<T>): T
  {
    if args == [] then d
    else
      match sel(args[|args| - 1])
      case Some(v) => v
      case None => LastOf(d, args[..|args| - 1], sel)
  }

  /** A switch that can only be turned on ends on exactly when some
      argument turns it on. */
  lemma {:induction false} LastOfSwitch(args: seq<string>, sel: string -> Option<bool>)
    requires forall a :: sel(a) == None || sel(a) == Some(true)
    ensures LastOf(false, args, sel) <==> exists i :: 0 <= i < |args| && sel(args[i]).Some?
  {
    if args != [] {
      var init := args[..|args| - 1];
      LastOfSwitch(init, sel);
      assert forall i :: 0 <= i < |init| ==> init[i] == args[i];
    }
  }

  lemma {:induction false} FoldAppend(env: Env, st: State, a: seq<string>, b: seq<string>)
    ensures Fold(env, st, a + b) ==
      match Fold(env, st, a)
      case Err(e) => Err(e)
      case Ok(s) => Fold(env, s, b)
    decreases |a|
  {
    if a != [] {
      assert (a + b)[0] == a[0];
      assert (a + b)[1..] == a[1..] + b;
      match Step(env, st, a[0])
      case Err(e) =>
      case Ok(next) => FoldAppend(env, next, a[1..], b);
    } else {
      assert a + b == b;
    }
  }

  /** Folding one more argument is one more `Step`. */
  lemma FoldSnoc(env: Env, st: State, init: seq<string>, last: string)
    ensures Fold(env, st, init + [last]) ==
      match Fold(env, st, init)
      case Err(e) => Err(e)
      case Ok(s) => Step(env, s, last)
  {
    FoldAppend(env, st, init, [last]);
    match Fold(env, st, init)
    case Err(e) =>
    case Ok(s) =>
      assert [last][1..] == [];
  }

  /** A fold that succeeds succeeded on all but the last argument, and its
      last step took that state to the final one. */
  lemma FoldPrefixOk(env: Env, st: State, args: seq<string>)
    requires args != [] && Fold(env, st, args).Ok?
    ensures Fold(env, st, args[..|args| - 1]).Ok?
    ensures Step(env, Fold(env, st, args[..|args| - 1]).value, args[|args| - 1]) == Fold(env, st, args)
  {
    var init, last := args[..|args| - 1], args[|args| - 1];
    assert args == init + [last];
    FoldSnoc(env, st, init, last);
    match Fold(env, st, init)
    case Err(e) =>
    case Ok(s) =>
      assert Fold(env, st, args) == Step(env, s, last);
  }

  /** If every step sets the projected setting to what `sel` says, or leaves
      it alone when `sel` says nothing, the fold ends with the last word. */
  lemma {:induction false} FoldLast<T>(env: Env, st: State, args: seq<string>, proj: Config -> T, sel: string -> Option<T>)
    requires forall s, a :: Step(env, s, a).Ok? ==> proj(Step(env, s, a).value.cfg) == sel(a).GetOr(proj(s.cfg))
    requires Fold(env, st, args).Ok?
    ensures proj(Fold(env, st, args).value.cfg) == LastOf(proj(st.cfg), args, sel)
    decreases |args|
  {
    if args != [] {
      FoldPrefixOk(env, st, args);
      FoldLast(env, st, args[..|args| - 1], proj, sel);
    }
  }

  // Which arguments have a say in which setting (src/main.rs:181-215).

  function ActionOf(arg: string): Option<Todo>
  {
    match ArmOf(arg)
    case GetArm => Some(GetLink)
    case PlayArm | MusicArm | SpeedArm(_) => Some(Play)
    case DownloadArm => Some(Download)
    case _ => None
  }

  function StreamingOf(arg: string): Option<bool>
  {
    match ArmOf(arg)
    case DownloadArm | DlLinkArm => Some(false)
    case StreamLinkArm => Some(true)
    case _ => None
  }

  function AudioOnlyOf(arg: string): Option<bool>
  {
    match ArmOf(arg)
    case AudioOnlyArm | MusicArm => Some(true)
    case _ => None
  }

  function LoopOf(arg: string): Option<bool>
  {
    match ArmOf(arg)
    case LoopArm | MusicArm => Some(true)
    case _ => None
  }

  function CombinedOf(arg: string): Option<bool>
  {
    match ArmOf(arg)
    case CombinedArm => Some(true)
    case _ => None
  }

  function ResolutionOf(arg: string): Option<U16>
  {
    match ArmOf(arg)
    case BestArm => Some(0)
    case QualityArm(v) => ParseU16(v)
    case _ => None
  }

  function VidCodecOf(arg: string): Option<string>
  {
    match ArmOf(arg)
    case VidCodecArm(v) => Some(v)
    case _ => None
  }

  function AudioCodecOf(arg: string): Option<string>
  {
    match ArmOf(arg)
    case AudioCodecArm(v) => Some(v)
    case _ => None
  }

  function SpeedOf(env: Env, arg: string): Option<Speed>
  {
    match ArmOf(arg)
    case MusicArm => Some(NonZeroSpeed("1"))
    case SpeedArm(v) => env.parseSpeed(v)
    case _ => None
  }

  // One step changes each setting only as its flag says.

  /** A link argument never changes the settings. */
  lemma LinkKeepsSettings(env: Env, s: State, a: string)
    requires ArmOf(a) == LinkArm && Step(env, s, a).Ok?
    ensures Step(env, s, a).value.cfg == s.cfg
  {
    assert Step(env, s, a) == Link(env, s, a);
  }

  lemma StepTodo(env: Env, s: State, a: string)
    requires Step(env, s, a).Ok?
    ensures var c := Step(env, s, a).value.cfg; c.todo == ActionOf(a).GetOr(s.cfg.todo)
  {
    if ArmOf(a) == LinkArm {
      LinkKeepsSettings(env, s, a);
    }
  }

  lemma StepStreaming(env: Env, s: State, a: string)
    requires Step(env, s, a).Ok?
    ensures var c := Step(env, s, a).value.cfg; c.streamingLink == StreamingOf(a).GetOr(s.cfg.streamingLink)
  {
    if ArmOf(a) == LinkArm {
      LinkKeepsSettings(env, s, a);
    }
  }

  lemma StepAudioOnly(env: Env, s: State, a: string)
    requires Step(env, s, a).Ok?
    ensures var c := Step(env, s, a).value.cfg; c.audioOnly == AudioOnlyOf(a).GetOr(s.cfg.audioOnly)
  {
    if ArmOf(a) == LinkArm {
      LinkKeepsSettings(env, s, a);
    }
  }

  lemma StepLoop(env: Env, s: State, a: string)
    requires Step(env, s, a).Ok?
    ensures var c := Step(env, s, a).value.cfg; c.loopFile == LoopOf(a).GetOr(s.cfg.loopFile)
  {
    if ArmOf(a) == LinkArm {
      LinkKeepsSettings(env, s, a);
    }
  }

  lemma StepDash(env: Env, s: State, a: string)
    requires Step(env, s, a).Ok?
    ensures var c := Step(env, s, a).value.cfg; c.isDash == (CombinedOf(a).None? && s.cfg.isDash)
  {
    if ArmOf(a) == LinkArm {
      LinkKeepsSettings(env, s, a);
    }
  }

  lemma StepResolution(env: Env, s: State, a: string)
    requires Step(env, s, a).Ok?
    ensures var c := Step(env, s, a).value.cfg; c.resolution == ResolutionOf(a).GetOr(s.cfg.resolution)
  {
    if ArmOf(a) == LinkArm {
      LinkKeepsSettings(env, s, a);
    }
  }

  lemma StepVidCodec(env: Env, s: State, a: string)
    requires Step(env, s, a).Ok?
    ensures var c := Step(env, s, a).value.cfg; c.vidCodec == VidCodecOf(a).GetOr(s.cfg.vidCodec)
  {
    if ArmOf(a) == LinkArm {
      LinkKeepsSettings(env, s, a);
    }
  }

  lemma StepAudioCodec(env: Env, s: State, a: string)
    requires Step(env, s, a).Ok?
    ensures var c := Step(env, s, a).value.cfg; c.audioCodec == AudioCodecOf(a).GetOr(s.cfg.audioCodec)
  {
    if ArmOf(a) == LinkArm {
      LinkKeepsSettings(env, s, a);
    }
  }

  lemma StepSpeed(env: Env, s: State, a: string)
    requires Step(env, s, a).Ok?
    ensures var c := Step(env, s, a).value.cfg; c.speed == SpeedOf(env, a).GetOr(s.cfg.speed)
  {
    if ArmOf(a) == LinkArm {
      LinkKeepsSettings(env, s, a);
    }
  }

  // ---------------------------------------------------------------------
  // The settings a successful parse ends with

  /** The action is the one named by the last of `-g`, `-p`, `-sp=`, `-m`,
      `-d` (Debug when there is none); `streaming_link` is decided by the
      last of `-d`, `-D`, `-s` (on when there is none); resolution, codecs
      and speed likewise by their last flag. */
  lemma LastFlagDecides(env: Env, args: seq<string>)
    requires Parse(env, args).Ok?
    ensures var c := Parse(env, args).value.cfg;
      && c.todo == LastOf(Debug, args, ActionOf)
      && c.streamingLink == LastOf(true, args, StreamingOf)
      && c.resolution == LastOf(0, args, ResolutionOf)
      && c.vidCodec == LastOf("avc", args, VidCodecOf)
      && c.audioCodec == LastOf("opus", args, AudioCodecOf)
      && c.speed == LastOf(ZeroSpeed, args, (a: string) => SpeedOf(env, a))
  {
    forall s, a | Step(env, s, a).Ok?
      ensures Step(env, s, a).value.cfg.todo == ActionOf(a).GetOr(s.cfg.todo)
      ensures Step(env, s, a).value.cfg.streamingLink == StreamingOf(a).GetOr(s.cfg.streamingLink)
      ensures Step(env, s, a).value.cfg.resolution == ResolutionOf(a).GetOr(s.cfg.resolution)
      ensures Step(env, s, a).value.cfg.vidCodec == VidCodecOf(a).GetOr(s.cfg.vidCodec)
      ensures Step(env, s, a).value.cfg.audioCodec == AudioCodecOf(a).GetOr(s.cfg.audioCodec)
      ensures Step(env, s, a).value.cfg.speed == SpeedOf(env, a).GetOr(s.cfg.speed)
    {
      StepTodo(env, s, a);
      StepStreaming(env, s, a);
      StepResolution(env, s, a);
      StepVidCodec(env, s, a);
      StepAudioCodec(env, s, a);
      StepSpeed(env, s, a);
    }
    FoldLast(env, Start, args, (c: Config) => c.todo, ActionOf);
    FoldLast(env, Start, args, (c: Config) => c.streamingLink, StreamingOf);
    FoldLast(env, Start, args, (c: Config) => c.resolution, ResolutionOf);
    FoldLast(env, Start, args, (c: Config) => c.vidCodec, VidCodecOf);
    FoldLast(env, Start, args, (c: Config) => c.audioCodec, AudioCodecOf);
    FoldLast(env, Start, args, (c: Config) => c.speed, (a: string) => SpeedOf(env, a));
  }

  /** `audio_only` ends set exactly when some `-a` or `-m` was given,
      `loop_file` exactly when some `-l` or `-m` was, and `is_dash` ends
      cleared exactly when some `-c` was. */
  lemma SwitchesSetIffPresent(env: Env, args: seq<string>)
    requires Parse(env, args).Ok?
    ensures var c := Parse(env, args).value.cfg;
      && (c.audioOnly <==> exists i :: 0 <= i < |args| && AudioOnlyOf(args[i]).Some?)
      && (c.loopFile <==> exists i :: 0 <= i < |args| && LoopOf(args[i]).Some?)
      && (!c.isDash <==> exists i :: 0 <= i < |args| && CombinedOf(args[i]).Some?)
  {
    forall s, a | Step(env, s, a).Ok?
      ensures Step(env, s, a).value.cfg.audioOnly == AudioOnlyOf(a).GetOr(s.cfg.audioOnly)
      ensures Step(env, s, a).value.cfg.loopFile == LoopOf(a).GetOr(s.cfg.loopFile)
      ensures !Step(env, s, a).value.cfg.isDash == CombinedOf(a).GetOr(!s.cfg.isDash)
    {
      StepAudioOnly(env, s, a);
      StepLoop(env, s, a);
      StepDash(env, s, a);
    }
    FoldLast(env, Start, args, (c: Config) => c.audioOnly, AudioOnlyOf);
    FoldLast(env, Start, args, (c: Config) => c.loopFile, LoopOf);
    FoldLast(env, Start, args, (c: Config) => !c.isDash, CombinedOf);
    LastOfSwitch(args, AudioOnlyOf);
    LastOfSwitch(args, LoopOf);
    LastOfSwitch(args, CombinedOf);
  }

  // ---------------------------------------------------------------------
  // Links: only the first is resolved, the warning is printed once

  /** The number of multiple-links warnings in a log. */
  function Warnings(log: seq<Event>): nat
  {
    if log == [] then 0
    else Warnings(log[..|log| - 1]) + (if log[|log| - 1] == MultipleLinksWarning then 1 else 0)
  }

  /** The resolver calls in a log, in order. */
  function Calls(log: seq<Event>): seq<Call>
  {
    if log == [] then []
    else Calls(log[..|log| - 1]) + (match log[|log| - 1] case Resolving(c) => [c] case _ => [])
  }

  /** What one step does to the link state: a non-link argument leaves it
      alone; a link after the first resolution at most records the
      warning; a link while `vid` is the default records the resolver
      call made with the current settings. */
  lemma StepLinks(env: Env, s: State, a: string)
    requires Step(env, s, a).Ok?
    ensures var n := Step(env, s, a).value;
      && (ArmOf(a) != LinkArm ==> n.vid == s.vid && n.multipleLinks == s.multipleLinks && n.log == s.log)
      && (ArmOf(a) == LinkArm && s.vid != DefaultVid ==>
            n.vid == s.vid && n.multipleLinks &&
            n.log == s.log + (if s.multipleLinks then [] else [MultipleLinksWarning]))
      && (ArmOf(a) == LinkArm && s.vid == DefaultVid ==>
            n.multipleLinks == s.multipleLinks &&
            exists id :: Classify(Fragment(a)) == Resolve(id) &&
              env.resolve(id, Fragment(a), HintsFor(id, s.cfg)) == Ok(n.vid) &&
              n.log == s.log + [Resolving(Call(id, Fragment(a), HintsFor(id, s.cfg)))])
  {
  }

  /** The warning count equals the `multiple_links` flag. */
  predicate WarnedOnce(st: State)
  {
    Warnings(st.log) == if st.multipleLinks then 1 else 0
  }

  lemma {:induction false} FoldWarnedOnce(env: Env, st: State, args: seq<string>)
    requires WarnedOnce(st) && Fold(env, st, args).Ok?
    ensures WarnedOnce(Fold(env, st, args).value)
    decreases |args|
  {
    if args != [] {
      var n := Step(env, st, args[0]).value;
      StepLinks(env, st, args[0]);
      if n.log != st.log {
        var e := n.log[|n.log| - 1];
        assert n.log[..|n.log| - 1] == st.log;
      }
      FoldWarnedOnce(env, n, args[1..]);
    }
  }

  /** However many links are given, the warning is printed at most once,
      and exactly when `multiple_links` ends set. */
  lemma WarningAtMostOnce(env: Env, args: seq<string>)
    requires Parse(env, args).Ok?
    ensures var st := Parse(env, args).value;
      Warnings(st.log) <= 1 && (Warnings(st.log) == 1 <==> st.multipleLinks)
  {
    FoldWarnedOnce(env, Start, args);
  }

  /** No resolver ever answers with `Vid::default()` itself. */
  ghost predicate NeverDefault(env: Env)
  {
    forall id, f, h :: env.resolve(id, f, h) != Ok(DefaultVid)
  }

  /** One resolver call so far exactly when `vid` is no longer the default. */
  predicate ResolvedOnce(st: State)
  {
    |Calls(st.log)| == if st.vid == DefaultVid then 0 else 1
  }

  lemma {:induction false} FoldResolvedOnce(env: Env, st: State, args: seq<string>)
    requires NeverDefault(env) && ResolvedOnce(st) && Fold(env, st, args).Ok?
    ensures ResolvedOnce(Fold(env, st, args).value)
    decreases |args|
  {
    if args != [] {
      var n := Step(env, st, args[0]).value;
      StepLinks(env, st, args[0]);
      if n.log != st.log {
        assert n.log[..|n.log| - 1] == st.log;
      }
      FoldResolvedOnce(env, n, args[1..]);
    }
  }

  /** With resolvers that never return the default record, the guard
      `vid == Vid::default()` lets at most one resolver call through. */
  lemma AtMostOneResolution(env: Env, args: seq<string>)
    requires NeverDefault(env) && Parse(env, args).Ok?
    ensures |Calls(Parse(env, args).value.log)| <= 1
  {
    FoldResolvedOnce(env, Start, args);
  }

  lemma {:induction false} CallsAppend(log: seq<Event>, e: seq<Event>)
    requires |e| <= 1
    ensures Calls(log + e) == Calls(log) + (if e != [] && e[0].Resolving? then [e[0].call] else [])
  {
    if e != [] {
      assert (log + e)[..|log + e| - 1] == log;
    } else {
      assert log + e == log;
    }
  }

  /** `call` is the one the URL argument `args[k]` caused: its fragment,
      routed by `Classify`, with the hints the settings gave after
      `args[..k]`, while `vid` was still the default. */
  predicate SeenAt(env: Env, args: seq<string>, k: int, call: Call)
  {
    && 0 <= k < |args|
    && ArmOf(args[k]) == LinkArm
    && Fold(env, Start, args[..k]).Ok?
    && Fold(env, Start, args[..k]).value.vid == DefaultVid
    && Classify(Fragment(args[k])) == Resolve(call.id)
    && call == Call(call.id, Fragment(args[k]), HintsFor(call.id, Fold(env, Start, args[..k]).value.cfg))
  }

  /** Every resolver call was made on the fragment of some URL argument,
      routed by `Classify`, with the hints the settings gave at that point
      of the loop and while `vid` was still the default. */
  lemma {:induction false} ResolverSeesSettingsAsTheyStand(env: Env, args: seq<string>, call: Call)
    requires Fold(env, Start, args).Ok? && call in Calls(Fold(env, Start, args).value.log)
    ensures exists k :: SeenAt(env, args, k, call)
    decreases |args|
  {
    var init := args[..|args| - 1];
    FoldPrefixOk(env, Start, args);
    if call in Calls(Fold(env, Start, init).value.log) {
      ResolverSeesSettingsAsTheyStand(env, init, call);
      var k :| SeenAt(env, init, k, call);
      SeenInPrefix(env, args, init, k, call);
    } else {
      NewCallSeen(env, args, call);
    }
  }

  /** A call seen in a prefix of the arguments is seen in the whole. */
  lemma SeenInPrefix(env: Env, args: seq<string>, init: seq<string>, k: int, call: Call)
    requires init <= args && SeenAt(env, init, k, call)
    ensures SeenAt(env, args, k, call)
  {
    assert init[..k] == args[..k] && init[k] == args[k];
  }

  /** A call the last step adds was caused by the last argument. */
  lemma NewCallSeen(env: Env, args: seq<string>, call: Call)
    requires args != [] && Fold(env, Start, args).Ok? && call in Calls(Fold(env, Start, args).value.log)
    requires Fold(env, Start, args[..|args| - 1]).Ok?
    requires call !in Calls(Fold(env, Start, args[..|args| - 1]).value.log)
    ensures SeenAt(env, args, |args| - 1, call)
  {
    var init, last := args[..|args| - 1], args[|args| - 1];
    FoldPrefixOk(env, Start, args);
    var s := Fold(env, Start, init).value;
    CallFromStep(env, s, last, Fold(env, Start, args).value, call);
  }

  /** A call that appears in the log after one step was made by that step,
      on its argument's fragment, with the settings as they stood. */
  lemma CallFromStep(env: Env, s: State, a: string, n: State, call: Call)
    requires Step(env, s, a) == Ok(n) && call in Calls(n.log) && call !in Calls(s.log)
    ensures ArmOf(a) == LinkArm && s.vid == DefaultVid
    ensures Classify(Fragment(a)) == Resolve(call.id)
    ensures call == Call(call.id, Fragment(a), HintsFor(call.id, s.cfg))
  {
    StepLinks(env, s, a);
    var e := n.log[|s.log|..];
    assert n.log == s.log + e;
    CallsAppend(s.log, e);
  }

  /** No argument of `args` is a URL. */
  predicate NoLinkIn(args: seq<string>)
  {
    forall j :: 0 <= j < |args| ==> ArmOf(args[j]) != LinkArm
  }

  lemma NoLinkInSnoc(args: seq<string>)
    requires args != []
    ensures NoLinkIn(args) <==> NoLinkIn(args[..|args| - 1]) && ArmOf(args[|args| - 1]) != LinkArm
  {
    assert forall j :: 0 <= j < |args| - 1 ==> args[..|args| - 1][j] == args[j];
  }

  /** With resolvers that never return the default record, `vid` stays the
      default exactly until the first URL argument. */
  lemma {:induction false} DefaultUntilFirstLink(env: Env, args: seq<string>)
    requires NeverDefault(env) && Fold(env, Start, args).Ok?
    ensures Fold(env, Start, args).value.vid == DefaultVid <==> NoLinkIn(args)
    decreases |args|
  {
    if args != [] {
      var init := args[..|args| - 1];
      FoldPrefixOk(env, Start, args);
      DefaultAfterStep(env, Fold(env, Start, init).value, args[|args| - 1], Fold(env, Start, args).value);
      DefaultUntilFirstLink(env, init);
      NoLinkInSnoc(args);
    }
  }

  /** One step keeps the default record exactly when it held the default
      and the argument is not a link. */
  lemma DefaultAfterStep(env: Env, s: State, a: string, n: State)
    requires NeverDefault(env) && Step(env, s, a) == Ok(n)
    ensures n.vid == DefaultVid <==> s.vid == DefaultVid && ArmOf(a) != LinkArm
  {
    StepLinks(env, s, a);
  }

  /** Only the first URL argument is resolved: any resolver call was made on
      the fragment of the first argument that is a link. */
  lemma OnlyFirstLinkResolved(env: Env, args: seq<string>, call: Call)
    requires NeverDefault(env) && Parse(env, args).Ok? && call in Calls(Parse(env, args).value.log)
    ensures exists k :: (0 <= k < |args| && ArmOf(args[k]) == LinkArm &&
      (forall j :: 0 <= j < k ==> ArmOf(args[j]) != LinkArm) &&
      call.fragment == Fragment(args[k]))
  {
    ResolverSeesSettingsAsTheyStand(env, args, call);
    var k :| SeenAt(env, args, k, call);
    DefaultUntilFirstLink(env, args[..k]);
    assert forall j :: 0 <= j < k ==> args[..k][j] == args[j];
  }

  // ---------------------------------------------------------------------
  // Exits

  lemma {:induction false} FoldNeverNoArgs(env: Env, st: State, args: seq<string>)
    ensures Fold(env, st, args) != Err(NoArgs)
    decreases |args|
  {
    if args != [] && Step(env, st, args[0]).Ok? {
      FoldNeverNoArgs(env, Step(env, st, args[0]).value, args[1..]);
    }
  }

  /** The run stops with "No args provided" (exit 1) exactly when there
      are no arguments. */
  lemma NoArgsIff(env: Env, args: seq<string>)
    ensures Parse(env, args) == Err(NoArgs) <==> args == []
    ensures args == [] ==> ExitCode(Parse(env, args).error) == 1
  {
    FoldNeverNoArgs(env, Start, args);
  }
}
