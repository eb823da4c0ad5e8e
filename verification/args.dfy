/** The argument loop of `main` (src/main.rs:170-285): a left fold of the
    command-line arguments over the run's settings, resolving the first URL
    it meets through the site classifier. */
module Args {
  import opened Wrappers
  import opened Text
  import opened Classifier
  import opened Media
  import opened Numbers

  datatype Todo = Play | Download | GetLink | Debug

  /** The `f32` playback speed, reduced to what the program looks at: zero
      (no `--speed=` for mpv) or a non-zero value and how it prints. */
  datatype Speed = ZeroSpeed | NonZeroSpeed(shown: string)

  /** The mutable locals of `main` other than `vid` (src/main.rs:62-73). */
  datatype Config = Config(
    todo: Todo,
    audioOnly: bool,
    loopFile: bool,
    streamingLink: bool,
    isDash: bool,
    resolution: U16,
    vidCodec: string,
    audioCodec: string,
    speed: Speed)

  const Defaults: Config := Config(Debug, false, false, true, true, 0, "avc", "opus", ZeroSpeed)

  /** The extra arguments a resolver is given besides the fragment; `None`
      where that resolver takes no such argument (src/main.rs:225-260). */
  datatype Hints = Hints(
    streamingLink: Option<bool>,
    resolution: Option<U16>,
    vidCodec: Option<string>,
    audioCodec: Option<string>,
    isDash: Option<bool>)

  function HintsFor(id: ResolverId, cfg: Config): Hints
  {
    match id
    case Streamhub | Streamvid | Streamtape | Doodstream | Vtube =>
      Hints(Some(cfg.streamingLink), None, None, None, None)
    case Rumble | Rokfin =>
      Hints(None, Some(cfg.resolution), None, None, None)
    case Youtube =>
      Hints(None, Some(cfg.resolution), Some(cfg.vidCodec), Some(cfg.audioCodec), Some(cfg.isDash))
    case Twatter =>
      Hints(Some(cfg.streamingLink), Some(cfg.resolution), None, None, None)
    case _ =>
      Hints(None, None, None, None, None)
  }

  /** What the program cannot see: the site resolvers (network scraping)
      and the `f32` parser behind `-sp=`. */
  datatype Env = Env(
    resolve: (ResolverId, string, Hints) -> Result<Vid, string>,
    parseSpeed: string -> Option<Speed>)

  /** A resolver call: which resolver, on which fragment, with which hints. */
  datatype Call = Call(id: ResolverId, fragment: string, hints: Hints)

  /** What the loop does besides updating its locals. */
  datatype Event = Resolving(call: Call) | MultipleLinksWarning

  datatype State = State(cfg: Config, vid: Vid, multipleLinks: bool, log: seq<Event>)

  const Start: State := State(Defaults, DefaultVid, false, [])

  /** Why the program stops before (or instead of) acting. */
  datatype Stop =
    | HelpShown                  // -h, --help
    | VersionShown               // -V, --version
    | InvalidArg(arg: string)
    | BadNumber(arg: string)     // `parse()?` failed on -q= or -sp=
    | UnsupportedLink(fragment: string)
    | ResolveFailed(message: string)
    | NoArgs
    | NoLink

  function ExitCode(s: Stop): (code: int)
    ensures code == 0 <==> s == HelpShown || s == VersionShown
    ensures code == 0 || code == 1
  {
    match s
    case HelpShown | VersionShown => 0
    case _ => 1
  }

  predicate IsFlag(arg: string, short: string, long: string)
  {
    arg == short || arg == long
  }

  predicate IsLink(arg: string)
  {
    Starts(["https://", "http://"], arg)
  }

  /** Every `key=` prefix has its `=`, so the value after it is defined. */
  lemma EqualsIn(prefixes: seq<string>, arg: string)
    requires Starts(prefixes, arg)
    requires forall p :: p in prefixes ==> '=' in p
    ensures '=' in arg
  {
    var p :| p in prefixes && StartsWith(arg, p);
    var i :| 0 <= i < |p| && p[i] == '=';
    assert arg[i] == p[i];
  }


  /** The arm of the `match` at src/main.rs:173-273 an argument falls
      into, with the value a `key=value` arm extracts. */
  datatype Arm =
    | HelpArm | VersionArm | GetArm | PlayArm | SpeedArm(value: string)
    | AudioOnlyArm | LoopArm | MusicArm | DownloadArm | DlLinkArm | StreamLinkArm
    | CombinedArm | BestArm | QualityArm(value: string)
    | VidCodecArm(value: string) | AudioCodecArm(value: string)
    | LinkArm | InvalidArm

  /** The four `key=value` arms. */
  datatype Key = SpeedKey | QualityKey | VidCodecKey | AudioCodecKey

  /** The prefixes each `key=` arm tests, short spelling first. */
  function Prefixes(key: Key): seq<string>
  {
    match key
    case SpeedKey => ["-sp=", "--speed="]
    case QualityKey => ["-q=", "--quality="]
    case VidCodecKey => ["-vc=", "--video-codec="]
    case AudioCodecKey => ["-ac=", "--audio-codec="]
  }

  lemma PrefixesHaveEquals(key: Key)
    ensures forall q :: q in Prefixes(key) ==> '=' in q
  {
  }

  /** The guard of one arm: a flag compared whole in its short or long
      spelling, or a `key=` prefix test. */
  datatype Pattern =
    | Exact(short: string, long: string, arm: Arm)
    | Keyed(key: Key)

  /** The number of guarded arms; URLs and the catch-all come after them. */
  const PatternCount: nat := 16

  /** The guarded arms, numbered in source order. */
  function PatternAt(i: nat): Pattern
    requires i < PatternCount
  {
    match i
    case 0 => Exact("-h", "--help", HelpArm)
    case 1 => Exact("-V", "--version", VersionArm)
    case 2 => Exact("-g", "--get", GetArm)
    case 3 => Exact("-p", "--play", PlayArm)
    case 4 => Keyed(SpeedKey)
    case 5 => Exact("-a", "--audio-only", AudioOnlyArm)
    case 6 => Exact("-l", "--loop", LoopArm)
    case 7 => Exact("-m", "--music", MusicArm)
    case 8 => Exact("-d", "--download", DownloadArm)
    case 9 => Exact("-D", "--dl_link", DlLinkArm)
    case 10 => Exact("-s", "--stream_link", StreamLinkArm)
    case 11 => Exact("-c", "--combined", CombinedArm)
    case 12 => Exact("-b", "--best", BestArm)
    case 13 => Keyed(QualityKey)
    case 14 => Keyed(VidCodecKey)
    case _ => Keyed(AudioCodecKey)
  }

  predicate Matches(p: Pattern, arg: string)
  {
    match p
    case Exact(short, long, _) => IsFlag(arg, short, long)
    case Keyed(key) => Starts(Prefixes(key), arg)
  }

  /** The arm a matching pattern selects: `-sp=` keeps what follows the
      LAST `=` (`rsplit_once`), the other keys what follows the first
      (`split_once`), and `-q=` also loses its trailing `p`s. */
  function ArmIn(p: Pattern, arg: string): Arm
    requires Matches(p, arg)
  {
    match p
    case Exact(_, _, arm) => arm
    case Keyed(key) =>
      PrefixesHaveEquals(key);
      EqualsIn(Prefixes(key), arg);
      var value := AfterFirst(arg, '=');
      match key
      case SpeedKey => SpeedArm(AfterLast(arg, '='))
      case QualityKey => QualityArm(TrimEndMatches(value, 'p'))
      case VidCodecKey => VidCodecArm(value)
      case AudioCodecKey => AudioCodecArm(value)
  }

  /** The arms tried in order from the `i`-th: the first pattern that
      matches decides; past the last, a URL is a link and anything else
      is invalid. */
  function ArmFrom(i: nat, arg: string): Arm
    requires i <= PatternCount
    decreases PatternCount - i
  {
    if i == PatternCount then (if IsLink(arg) then LinkArm else InvalidArm)
    else if Matches(PatternAt(i), arg) then ArmIn(PatternAt(i), arg)
    else ArmFrom(i + 1, arg)
  }

  function ArmOf(arg: string): Arm
  {
    ArmFrom(0, arg)
  }

  /** Patterns that do not match are passed over. */
  lemma {:induction false} ArmFromSkips(i: nat, arg: string, k: nat)
    requires i <= k <= PatternCount
    requires forall j :: i <= j < k ==> !Matches(PatternAt(j), arg)
    ensures ArmFrom(i, arg) == ArmFrom(k, arg)
    decreases k - i
  {
    if i < k {
      ArmFromSkips(i + 1, arg, k);
    }
  }

  /** The earliest matching pattern decides the arm. */
  lemma ArmFromFirst(i: nat, arg: string, k: nat)
    requires i <= k < PatternCount && Matches(PatternAt(k), arg)
    requires forall j :: i <= j < k ==> !Matches(PatternAt(j), arg)
    ensures ArmFrom(i, arg) == ArmIn(PatternAt(k), arg)
  {
    ArmFromSkips(i, arg, k);
  }

  /** With no pattern matching, a URL is a link and anything else is
      invalid. */
  lemma ArmFromNone(i: nat, arg: string)
    requires i <= PatternCount && forall j :: i <= j < PatternCount ==> !Matches(PatternAt(j), arg)
    ensures ArmFrom(i, arg) == if IsLink(arg) then LinkArm else InvalidArm
  {
    ArmFromSkips(i, arg, PatternCount);
  }

  /** Every spelling a pattern tests begins with a dash. */
  predicate DashLed(p: Pattern)
  {
    match p
    case Exact(short, long, _) => 0 < |short| && short[0] == '-' && 0 < |long| && long[0] == '-'
    case Keyed(key) => forall q :: q in Prefixes(key) ==> 0 < |q| && q[0] == '-'
  }

  lemma PatternDashLed(i: nat)
    requires i < PatternCount
    ensures DashLed(PatternAt(i))
  {
  }

  /** Any URL argument lands in the link arm, since no flag begins with
      `h` (src/main.rs:217-218). */
  lemma LinkArmOf(url: string)
    requires IsLink(url)
    ensures ArmOf(url) == LinkArm
  {
    assert url[0] == 'h';
    forall j | 0 <= j < PatternCount
      ensures !Matches(PatternAt(j), url)
    {
      PatternDashLed(j);
    }
    ArmFromNone(0, url);
  }

  /** A flag given in the short spelling of the `k`-th pattern, matched by
      no earlier one, lands in that pattern's arm. */
  lemma FlagArm(arg: string, k: nat)
    requires k < PatternCount && PatternAt(k).Exact? && arg == PatternAt(k).short
    requires forall j :: 0 <= j < k ==> !Matches(PatternAt(j), arg)
    ensures ArmOf(arg) == PatternAt(k).arm
  {
    ArmFromFirst(0, arg, k);
  }

  lemma GetFlag()
    ensures ArmOf("-g") == GetArm
  {
    FlagArm("-g", 2);
  }

  lemma AudioOnlyFlag()
    ensures ArmOf("-a") == AudioOnlyArm
  {
    FlagArm("-a", 5);
  }

  lemma MusicFlag()
    ensures ArmOf("-m") == MusicArm
  {
    FlagArm("-m", 7);
  }

  lemma DownloadFlag()
    ensures ArmOf("-d") == DownloadArm
  {
    FlagArm("-d", 8);
  }

  lemma StreamLinkFlag()
    ensures ArmOf("-s") == StreamLinkArm
  {
    FlagArm("-s", 10);
  }

  /** One iteration of the `for arg in args().skip(1)` loop. */
  function Step(env: Env, st: State, arg: string): Result<State, Stop>
  {
    var cfg := st.cfg;
    match ArmOf(arg)
    case HelpArm => Err(HelpShown)
    case VersionArm => Err(VersionShown)
    case GetArm => Ok(st.(cfg := cfg.(todo := GetLink)))
    case PlayArm => Ok(st.(cfg := cfg.(todo := Play)))
    case SpeedArm(v) =>
      (match env.parseSpeed(v)
       case None => Err(BadNumber(arg))
       case Some(sp) => Ok(st.(cfg := cfg.(speed := sp, todo := Play))))
    case AudioOnlyArm => Ok(st.(cfg := cfg.(audioOnly := true)))
    case LoopArm => Ok(st.(cfg := cfg.(loopFile := true)))
    case MusicArm =>
      Ok(st.(cfg := cfg.(audioOnly := true, loopFile := true, speed := NonZeroSpeed("1"), todo := Play)))
    case DownloadArm => Ok(st.(cfg := cfg.(todo := Download, streamingLink := false)))
    case DlLinkArm => Ok(st.(cfg := cfg.(streamingLink := false)))
    case StreamLinkArm => Ok(st.(cfg := cfg.(streamingLink := true)))
    case CombinedArm => Ok(st.(cfg := cfg.(isDash := false)))
    case BestArm => Ok(st.(cfg := cfg.(resolution := 0)))
    case QualityArm(v) =>
      (match ParseU16(v)
       case None => Err(BadNumber(arg))
       case Some(q) => Ok(st.(cfg := cfg.(resolution := q))))
    case VidCodecArm(v) => Ok(st.(cfg := cfg.(vidCodec := v)))
    case AudioCodecArm(v) => Ok(st.(cfg := cfg.(audioCodec := v)))
    case LinkArm => Link(env, st, arg)
    case InvalidArm => Err(InvalidArg(arg))
  }

  /** The URL arm (src/main.rs:217-269): only while `vid` is still the
      default is the link classified and resolved; a later link prints the
      multiple-links warning, once. */
  function Link(env: Env, st: State, arg: string): (r: Result<State, Stop>)
    ensures r.Ok? && st.vid != DefaultVid ==>
      r.value == st.(multipleLinks := true, log := st.log + (if st.multipleLinks then [] else [MultipleLinksWarning]))
    ensures r.Ok? && st.vid == DefaultVid ==>
      exists id :: Classify(Fragment(arg)) == Resolve(id) &&
        var call := Call(id, Fragment(arg), HintsFor(id, st.cfg));
        env.resolve(id, call.fragment, call.hints) == Ok(r.value.vid) &&
        r.value == st.(vid := r.value.vid, log := st.log + [Resolving(call)])
    ensures r.Err? <==> (st.vid == DefaultVid &&
      (Classify(Fragment(arg)).Unsupported? ||
       env.resolve(Classify(Fragment(arg)).id, Fragment(arg), HintsFor(Classify(Fragment(arg)).id, st.cfg)).Err?))
  {
    if st.vid == DefaultVid then
      var f := Fragment(arg);
      match Classify(f)
      case Unsupported => Err(UnsupportedLink(f))
      case Resolve(id) =>
        var call := Call(id, f, HintsFor(id, st.cfg));
        match env.resolve(id, f, call.hints)
        case Err(e) => Err(ResolveFailed(e))
        case Ok(v) => Ok(st.(vid := v, log := st.log + [Resolving(call)]))
    else if !st.multipleLinks then
      Ok(st.(multipleLinks := true, log := st.log + [MultipleLinksWarning]))
    else
      Ok(st)
  }

  /** The whole loop: a left fold that stops at the first arm that exits. */
  function Fold(env: Env, st: State, args: seq<string>): Result<State, Stop>
    decreases |args|
  {
    if args == [] then Ok(st)
    else
      match Step(env, st, args[0])
      case Err(e) => Err(e)
      case Ok(next) => Fold(env, next, args[1..])
  }

  /** The loop followed by the `no_args` exit (src/main.rs:277-280). */
  function Parse(env: Env, args: seq<string>): Result<State, Stop>
  {
    if args == [] then Err(NoArgs) else Fold(env, Start, args)
  }
}
