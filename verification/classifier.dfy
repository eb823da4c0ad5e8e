/** The site classifier of `src/main.rs`: the URL argument loses its scheme
    and `www.`, and the remaining fragment is routed to one of eighteen site
    resolvers by an ordered chain of `contains` / `starts_with` tests over
    the per-site alias tables (mirrors and alternative front-ends). */
module Classifier {
  import opened Text

  /** One identity per resolver `main` can call (src/main.rs:4-9). */
  datatype ResolverId =
    | Substack | Streamhub | Streamvid | Streamtape | Streamdav | Wolfstream
    | Spotify | Bitchute | Rumble | Odysee | Youtube | Reddit | Twatter
    | Doodstream | Vtube | Libsyn | Mp4upload | Rokfin

  /** The classifier's verdict: a resolver, or `Unsupported` (exit 1). */
  datatype Route = Resolve(id: ResolverId) | Unsupported

  // The alias tables, src/main.rs:84-168, in their source order.

  const VtubePrefixes: seq<string> := ["vtbe.to/", "vtube.network/"]

  const LibsynPrefixes: seq<string> := ["play.libsyn.com", "html5-player.libsyn.com"]

  const SpotifyPrefixes: seq<string> := [
    "open.spotify.com/episode/",
    "open.spotify.com/embed/episode/"
  ]

  const OdyseePrefixes: seq<string> := [
    "odysee.com/",
    // Librarian
    "lbry.", "librarian.", "odysee.076.ne.jp/"
  ]

  const YoutubePrefixes: seq<string> := [
    "youtu.be/",
    // Hyperpipe
    "hyperpipe.", "music.", "listen.", "hp.",
    // Piped
    "piped.", "watch.leptons.xyz/", "pi.ggtyler.dev",
    // Invidious
    "invidious.", "inv.", "iv.", "yt.", "yewtu.be/", "vid.puffyan.us/",
    "vid.priv.au/", "onion.tube/", "anontube.lvkaszus.pl/"
  ]

  const RedditPrefixes: seq<string> := [
    "old.reddit.com/", "redd.it/", "reddit.",
    // Libreddit
    "libreddit.", "lr.", "safereddit.com/", "r.walkx.fyi/", "l.opnxng.com/",
    "snoo.habedieeh.re/",
    // Teddit
    "teddit.", "snoo.ioens.is/", "incogsnoo.com/", "rdt.trom.tf/",
    "i.opnxng.com/", "td.vern.cc/", "t.sneed.network/"
  ]

  const TwatterPrefixes: seq<string> := [
    "x.com/", "mobile.x.com/", "twitter.com/", "mobile.twitter.com/",
    // Nitter
    "nitter.", "nt.", "n.", "twiiit.com/", "tweet.lambda.dance/",
    "bird.habedieeh.re/", "t.com.sb/", "xcancel.com/"
  ]

  const DoodstreamPrefixes: seq<string> := [
    "doodstream.com/", "d0o0d.com/", "d0000d.com/", "ds2play.com/",
    "dooood.com/", "doods.pro/", "dood."
  ]

  /** The URL argument with every leading `https://`, then every leading
      `http://`, then every leading `www.` removed (src/main.rs:219-222). */
  function Fragment(url: string): (f: string)
    ensures !StartsWith(f, "www.")
    ensures |f| <= |url|
  {
    TrimStartMatches(TrimStartMatches(TrimStartMatches(url, "https://"), "http://"), "www.")
  }

  /** What `Fragment` removed is some copies of `https://`, then of
      `http://`, then of `www.`, each run as long as it goes: what follows
      the `https://` copies does not start with another, and likewise for
      the other two. */
  lemma FragmentStripsPrefixes(url: string)
    ensures exists a, b, c ::
      && url == Repeat("https://", a) + Repeat("http://", b) + Repeat("www.", c) + Fragment(url)
      && !StartsWith(Repeat("http://", b) + Repeat("www.", c) + Fragment(url), "https://")
      && !StartsWith(Repeat("www.", c) + Fragment(url), "http://")
      && !StartsWith(Fragment(url), "www.")
  {
    TrimThreeRemovesCopies(url, "https://", "http://", "www.");
  }

  /** Three trims in a row remove the longest run of copies of each prefix
      in turn. */
  lemma TrimThreeRemovesCopies(url: string, p: string, q: string, w: string)
    requires p != [] && q != [] && w != []
    ensures var f := TrimStartMatches(TrimStartMatches(TrimStartMatches(url, p), q), w);
      exists a, b, c ::
        && url == Repeat(p, a) + Repeat(q, b) + Repeat(w, c) + f
        && !StartsWith(Repeat(q, b) + Repeat(w, c) + f, p)
        && !StartsWith(Repeat(w, c) + f, q)
        && !StartsWith(f, w)
  {
    var s1 := TrimStartMatches(url, p);
    var s2 := TrimStartMatches(s1, q);
    var f := TrimStartMatches(s2, w);
    TrimStartRemovesCopies(url, p);
    TrimStartRemovesCopies(s1, q);
    TrimStartRemovesCopies(s2, w);
    var a: nat :| url == Repeat(p, a) + s1;
    var b: nat :| s1 == Repeat(q, b) + s2;
    var c: nat :| s2 == Repeat(w, c) + f;
    var r1, r2, r3 := Repeat(p, a), Repeat(q, b), Repeat(w, c);
    assert url == r1 + (r2 + (r3 + f));
    ConcatAssoc(r1, r2, r3, f);
    assert s1 == r2 + r3 + f && s2 == r3 + f;
  }

  /** The dispatch chain of src/main.rs:224-264 as written, first match
      wins. */
  function Dispatch(f: string): Route
  {
    if Contains(f, ".substack.com/p/") then Resolve(Substack)
    else if StartsWith(f, "streamhub.") then Resolve(Streamhub)
    else if StartsWith(f, "streamvid.") then Resolve(Streamvid)
    else if StartsWith(f, "streamtape.") then Resolve(Streamtape)
    else if StartsWith(f, "streamdav.com/") then Resolve(Streamdav)
    else if StartsWith(f, "wolfstream.tv/") then Resolve(Wolfstream)
    else if Starts(SpotifyPrefixes, f) then Resolve(Spotify)
    else if StartsWith(f, "bitchute.com/") then Resolve(Bitchute)
    else if StartsWith(f, "rumble.com/") then Resolve(Rumble)
    else if Starts(OdyseePrefixes, f) then Resolve(Odysee)
    else if Contains(f, "youtube.com/") || Starts(YoutubePrefixes, f) then Resolve(Youtube)
    else if Starts(RedditPrefixes, f) then Resolve(Reddit)
    else if Starts(TwatterPrefixes, f) || Contains(f, "unofficialbird.com/") then Resolve(Twatter)
    else if Starts(DoodstreamPrefixes, f) then Resolve(Doodstream)
    else if Starts(VtubePrefixes, f) then Resolve(Vtube)
    else if Starts(LibsynPrefixes, f) then Resolve(Libsyn)
    else if StartsWith(f, "mp4upload.com/") then Resolve(Mp4upload)
    else if StartsWith(f, "rokfin.com/post/") then Resolve(Rokfin)
    else Unsupported
  }

  // ---------------------------------------------------------------------
  // The same dispatch as declarative data: a priority-ordered rule table.

  /** A site rule: it fires when the fragment starts with one of `prefixes`
      or contains one of `infixes`. */
  datatype Rule = Rule(prefixes: seq<string>, infixes: seq<string>, id: ResolverId)

  predicate Fires(rule: Rule, f: string)
  {
    Starts(rule.prefixes, f) || exists p :: p in rule.infixes && Contains(f, p)
  }

  const Rules: seq<Rule> := [
    Rule([], [".substack.com/p/"], Substack),
    Rule(["streamhub."], [], Streamhub),
    Rule(["streamvid."], [], Streamvid),
    Rule(["streamtape."], [], Streamtape),
    Rule(["streamdav.com/"], [], Streamdav),
    Rule(["wolfstream.tv/"], [], Wolfstream),
    Rule(SpotifyPrefixes, [], Spotify),
    Rule(["bitchute.com/"], [], Bitchute),
    Rule(["rumble.com/"], [], Rumble),
    Rule(OdyseePrefixes, [], Odysee),
    Rule(YoutubePrefixes, ["youtube.com/"], Youtube),
    Rule(RedditPrefixes, [], Reddit),
    Rule(TwatterPrefixes, ["unofficialbird.com/"], Twatter),
    Rule(DoodstreamPrefixes, [], Doodstream),
    Rule(VtubePrefixes, [], Vtube),
    Rule(LibsynPrefixes, [], Libsyn),
    Rule(["mp4upload.com/"], [], Mp4upload),
    Rule(["rokfin.com/post/"], [], Rokfin)
  ]

  /** The first rule of `rules` that fires, top to bottom. */
  function FirstMatch(rules: seq<Rule>, f: string): Route
  {
    FirstMatchFrom(rules, 0, f)
  }

  /** The first rule of `rules` at index `k` or later that fires. */
  function FirstMatchFrom(rules: seq<Rule>, k: nat, f: string): Route
    decreases |rules| - k
  {
    if k >= |rules| then Unsupported
    else if Fires(rules[k], f) then Resolve(rules[k].id)
    else FirstMatchFrom(rules, k + 1, f)
  }

  /** The route `main` takes for a fragment: the first rule of the table
      that fires (`DispatchIsFirstMatch` shows this is the chain as
      written). */
  function Classify(f: string): Route
  {
    FirstMatch(Rules, f)
  }

  /** `FirstMatch` picks the earliest firing rule, and reports `Unsupported`
      exactly when no rule fires. */
  lemma FirstMatchIsEarliest(rules: seq<Rule>, f: string, k: int)
    requires 0 <= k < |rules| && Fires(rules[k], f)
    requires forall j :: 0 <= j < k ==> !Fires(rules[j], f)
    ensures FirstMatch(rules, f) == Resolve(rules[k].id)
  {
    EarliestFrom(rules, f, 0, k);
  }

  lemma {:induction false} EarliestFrom(rules: seq<Rule>, f: string, i: nat, k: int)
    requires i <= k < |rules| && Fires(rules[k], f)
    requires forall j :: i <= j < k ==> !Fires(rules[j], f)
    ensures FirstMatchFrom(rules, i, f) == Resolve(rules[k].id)
    decreases k - i
  {
    if i < k {
      EarliestFrom(rules, f, i + 1, k);
    }
  }

  lemma FirstMatchUnsupported(rules: seq<Rule>, f: string)
    ensures FirstMatch(rules, f) == Unsupported <==>
      forall k :: 0 <= k < |rules| ==> !Fires(rules[k], f)
  {
    UnsupportedFrom(rules, f, 0);
  }

  lemma {:induction false} UnsupportedFrom(rules: seq<Rule>, f: string, i: nat)
    ensures FirstMatchFrom(rules, i, f) == Unsupported <==>
      forall k :: i <= k < |rules| ==> !Fires(rules[k], f)
    decreases |rules| - i
  {
    if i < |rules| {
      UnsupportedFrom(rules, f, i + 1);
    }
  }

  /** How a rule with a prefix table and at most one infix fires. */
  lemma FiresOf(prefixes: seq<string>, infixes: seq<string>, id: ResolverId, f: string)
    requires |infixes| <= 1
    ensures Fires(Rule(prefixes, infixes, id), f) <==>
      Starts(prefixes, f) || (|infixes| == 1 && Contains(f, infixes[0]))
  {
    if |infixes| == 1 {
      assert forall p :: p in infixes ==> p == infixes[0];
    }
  }

  lemma FiresSingle(p: string, id: ResolverId, f: string)
    ensures Fires(Rule([p], [], id), f) <==> StartsWith(f, p)
  {
    assert p in [p];
  }

  /** Each rule of the table fires exactly when its branch of `Dispatch`
      is taken. */
  lemma RulesAsWritten0(f: string)
    ensures Fires(Rules[0], f) <==> (Contains(f, ".substack.com/p/"))
    ensures Fires(Rules[1], f) <==> (StartsWith(f, "streamhub."))
    ensures Fires(Rules[2], f) <==> (StartsWith(f, "streamvid."))
  {
    FiresOf([], [".substack.com/p/"], Substack, f);
    FiresSingle("streamhub.", Streamhub, f);
    FiresSingle("streamvid.", Streamvid, f);
  }

  lemma RulesAsWritten1(f: string)
    ensures Fires(Rules[3], f) <==> (StartsWith(f, "streamtape."))
    ensures Fires(Rules[4], f) <==> (StartsWith(f, "streamdav.com/"))
    ensures Fires(Rules[5], f) <==> (StartsWith(f, "wolfstream.tv/"))
  {
    FiresSingle("streamtape.", Streamtape, f);
    FiresSingle("streamdav.com/", Streamdav, f);
    FiresSingle("wolfstream.tv/", Wolfstream, f);
  }

  lemma RulesAsWritten2(f: string)
    ensures Fires(Rules[6], f) <==> (Starts(SpotifyPrefixes, f))
    ensures Fires(Rules[7], f) <==> (StartsWith(f, "bitchute.com/"))
    ensures Fires(Rules[8], f) <==> (StartsWith(f, "rumble.com/"))
  {
    FiresOf(SpotifyPrefixes, [], Spotify, f);
    FiresSingle("bitchute.com/", Bitchute, f);
    FiresSingle("rumble.com/", Rumble, f);
  }

  lemma RulesAsWritten3(f: string)
    ensures Fires(Rules[9], f) <==> (Starts(OdyseePrefixes, f))
    ensures Fires(Rules[10], f) <==> (Contains(f, "youtube.com/") || Starts(YoutubePrefixes, f))
    ensures Fires(Rules[11], f) <==> (Starts(RedditPrefixes, f))
  {
    FiresOf(OdyseePrefixes, [], Odysee, f);
    FiresOf(YoutubePrefixes, ["youtube.com/"], Youtube, f);
    FiresOf(RedditPrefixes, [], Reddit, f);
  }

  lemma RulesAsWritten4(f: string)
    ensures Fires(Rules[12], f) <==> (Starts(TwatterPrefixes, f) || Contains(f, "unofficialbird.com/"))
    ensures Fires(Rules[13], f) <==> (Starts(DoodstreamPrefixes, f))
    ensures Fires(Rules[14], f) <==> (Starts(VtubePrefixes, f))
  {
    FiresOf(TwatterPrefixes, ["unofficialbird.com/"], Twatter, f);
    FiresOf(DoodstreamPrefixes, [], Doodstream, f);
    FiresOf(VtubePrefixes, [], Vtube, f);
  }

  lemma RulesAsWritten5(f: string)
    ensures Fires(Rules[15], f) <==> (Starts(LibsynPrefixes, f))
    ensures Fires(Rules[16], f) <==> (StartsWith(f, "mp4upload.com/"))
    ensures Fires(Rules[17], f) <==> (StartsWith(f, "rokfin.com/post/"))
  {
    FiresOf(LibsynPrefixes, [], Libsyn, f);
    FiresSingle("mp4upload.com/", Mp4upload, f);
    FiresSingle("rokfin.com/post/", Rokfin, f);
  }

  /** The dispatch chain is the first-match reading of the rule table. */
  lemma DispatchIsFirstMatch(f: string)
    ensures Dispatch(f) == Classify(f)
  {
    EarlyRules(f);
    MiddleRules(f);
    LateRules(f);
  }

  lemma EarlyRules(f: string)
    ensures FirstMatchFrom(Rules, 0, f) ==
      if Contains(f, ".substack.com/p/") then Resolve(Substack) else
      if StartsWith(f, "streamhub.") then Resolve(Streamhub) else
      if StartsWith(f, "streamvid.") then Resolve(Streamvid) else
      if StartsWith(f, "streamtape.") then Resolve(Streamtape) else
      if StartsWith(f, "streamdav.com/") then Resolve(Streamdav) else
      if StartsWith(f, "wolfstream.tv/") then Resolve(Wolfstream) else
      FirstMatchFrom(Rules, 6, f)
  {
    RulesAsWritten0(f);
    RulesAsWritten1(f);
    assert FirstMatchFrom(Rules, 0, f) == if Fires(Rules[0], f) then Resolve(Substack) else FirstMatchFrom(Rules, 1, f);
    assert FirstMatchFrom(Rules, 1, f) == if Fires(Rules[1], f) then Resolve(Streamhub) else FirstMatchFrom(Rules, 2, f);
    assert FirstMatchFrom(Rules, 2, f) == if Fires(Rules[2], f) then Resolve(Streamvid) else FirstMatchFrom(Rules, 3, f);
    assert FirstMatchFrom(Rules, 3, f) == if Fires(Rules[3], f) then Resolve(Streamtape) else FirstMatchFrom(Rules, 4, f);
    assert FirstMatchFrom(Rules, 4, f) == if Fires(Rules[4], f) then Resolve(Streamdav) else FirstMatchFrom(Rules, 5, f);
    assert FirstMatchFrom(Rules, 5, f) == if Fires(Rules[5], f) then Resolve(Wolfstream) else FirstMatchFrom(Rules, 6, f);
  }

  lemma MiddleRules(f: string)
    ensures FirstMatchFrom(Rules, 6, f) ==
      if Starts(SpotifyPrefixes, f) then Resolve(Spotify) else
      if StartsWith(f, "bitchute.com/") then Resolve(Bitchute) else
      if StartsWith(f, "rumble.com/") then Resolve(Rumble) else
      if Starts(OdyseePrefixes, f) then Resolve(Odysee) else
      if Contains(f, "youtube.com/") || Starts(YoutubePrefixes, f) then Resolve(Youtube) else
      if Starts(RedditPrefixes, f) then Resolve(Reddit) else
      FirstMatchFrom(Rules, 12, f)
  {
    RulesAsWritten2(f);
    RulesAsWritten3(f);
    assert FirstMatchFrom(Rules, 6, f) == if Fires(Rules[6], f) then Resolve(Spotify) else FirstMatchFrom(Rules, 7, f);
    assert FirstMatchFrom(Rules, 7, f) == if Fires(Rules[7], f) then Resolve(Bitchute) else FirstMatchFrom(Rules, 8, f);
    assert FirstMatchFrom(Rules, 8, f) == if Fires(Rules[8], f) then Resolve(Rumble) else FirstMatchFrom(Rules, 9, f);
    assert FirstMatchFrom(Rules, 9, f) == if Fires(Rules[9], f) then Resolve(Odysee) else FirstMatchFrom(Rules, 10, f);
    assert FirstMatchFrom(Rules, 10, f) == if Fires(Rules[10], f) then Resolve(Youtube) else FirstMatchFrom(Rules, 11, f);
    assert FirstMatchFrom(Rules, 11, f) == if Fires(Rules[11], f) then Resolve(Reddit) else FirstMatchFrom(Rules, 12, f);
  }

  lemma LateRules(f: string)
    ensures FirstMatchFrom(Rules, 12, f) ==
      if Starts(TwatterPrefixes, f) || Contains(f, "unofficialbird.com/") then Resolve(Twatter) else
      if Starts(DoodstreamPrefixes, f) then Resolve(Doodstream) else
      if Starts(VtubePrefixes, f) then Resolve(Vtube) else
      if Starts(LibsynPrefixes, f) then Resolve(Libsyn) else
      if StartsWith(f, "mp4upload.com/") then Resolve(Mp4upload) else
      if StartsWith(f, "rokfin.com/post/") then Resolve(Rokfin) else
      Unsupported
  {
    RulesAsWritten4(f);
    RulesAsWritten5(f);
    assert FirstMatchFrom(Rules, 12, f) == if Fires(Rules[12], f) then Resolve(Twatter) else FirstMatchFrom(Rules, 13, f);
    assert FirstMatchFrom(Rules, 13, f) == if Fires(Rules[13], f) then Resolve(Doodstream) else FirstMatchFrom(Rules, 14, f);
    assert FirstMatchFrom(Rules, 14, f) == if Fires(Rules[14], f) then Resolve(Vtube) else FirstMatchFrom(Rules, 15, f);
    assert FirstMatchFrom(Rules, 15, f) == if Fires(Rules[15], f) then Resolve(Libsyn) else FirstMatchFrom(Rules, 16, f);
    assert FirstMatchFrom(Rules, 16, f) == if Fires(Rules[16], f) then Resolve(Mp4upload) else FirstMatchFrom(Rules, 17, f);
    assert FirstMatchFrom(Rules, 17, f) == if Fires(Rules[17], f) then Resolve(Rokfin) else FirstMatchFrom(Rules, 18, f);
  }

  /** The chain reports `Unsupported` exactly when no rule of the table
      fires on the fragment. */
  lemma DispatchUnsupportedIff(f: string)
    ensures Dispatch(f) == Unsupported <==> forall k :: 0 <= k < |Rules| ==> !Fires(Rules[k], f)
  {
    DispatchIsFirstMatch(f);
    FirstMatchUnsupported(Rules, f);
  }

  /** When rule `k` fires and no earlier rule does, the chain routes to
      rule `k`'s resolver, whatever later rules would say. */
  lemma DispatchPicksEarliest(f: string, k: int)
    requires 0 <= k < |Rules| && Fires(Rules[k], f)
    requires forall j :: 0 <= j < k ==> !Fires(Rules[j], f)
    ensures Dispatch(f) == Resolve(Rules[k].id)
  {
    DispatchIsFirstMatch(f);
    FirstMatchIsEarliest(Rules, f, k);
  }

  /** A fragment whose first character begins no entry of a table starts
      with none of them. */
  lemma FirstCharExcludes(prefixes: seq<string>, f: string)
    requires f != [] && forall p :: p in prefixes ==> p != [] && p[0] != f[0]
    ensures !Starts(prefixes, f)
  {
  }

  /** A fragment shorter than the pattern cannot contain it. */
  lemma TooShortToContain(f: string, p: string)
    requires |f| < |p|
    ensures !Contains(f, p)
  {
    ContainsIff(f, p);
  }

  /** None of the single-alias tests before YouTube's accepts a fragment
      that begins with `n` or `y`. */
  lemma EarlyAliasesMissN(f: string)
    requires 0 < |f| && (f[0] == 'n' || f[0] == 'y')
    ensures !StartsWith(f, "streamhub.") && !StartsWith(f, "streamvid.") && !StartsWith(f, "streamtape.")
      && !StartsWith(f, "streamdav.com/") && !StartsWith(f, "wolfstream.tv/")
      && !StartsWith(f, "bitchute.com/") && !StartsWith(f, "rumble.com/")
  {
  }

  /** Nor does any Spotify or Odysee alias. */
  lemma EarlyTablesMissN(f: string)
    requires 0 < |f| && (f[0] == 'n' || f[0] == 'y')
    ensures !Starts(SpotifyPrefixes, f) && !Starts(OdyseePrefixes, f)
  {
    FirstCharExcludes(SpotifyPrefixes, f);
    FirstCharExcludes(OdyseePrefixes, f);
  }

  /** Hence such a fragment that passes the YouTube test goes to YouTube. */
  lemma YoutubeFirst(f: string)
    requires 0 < |f| < 16 && (f[0] == 'n' || f[0] == 'y')
    requires Contains(f, "youtube.com/") || Starts(YoutubePrefixes, f)
    ensures Dispatch(f) == Resolve(Youtube)
  {
    TooShortToContain(f, ".substack.com/p/");
    EarlyAliasesMissN(f);
    EarlyTablesMissN(f);
  }

  /** An alias does not decide the route on its own: a fragment that starts
      with the nitter alias `n.` but contains `youtube.com/` goes to the
      YouTube resolver, because the YouTube test comes first. */
  lemma InfixOutranksAlias()
    ensures "n." in TwatterPrefixes && StartsWith("n.youtube.com/", "n.")
    ensures Classify("n.youtube.com/") == Resolve(Youtube)
  {
    var f := "n.youtube.com/";
    assert OccursAt(f, "youtube.com/", 2);
    OccursContains(f, "youtube.com/", 2);
    YoutubeFirst(f);
    DispatchIsFirstMatch(f);
  }

  lemma YoutuBeFragment()
    ensures Fragment("https://youtu.be/abc123") == "youtu.be/abc123"
  {
    var u := "https://youtu.be/abc123";
    var f := "youtu.be/abc123";
    assert StartsWith(u, "https://") && u[8..] == f;
    assert f[0] == 'y';
    assert !StartsWith(f, "https://") && !StartsWith(f, "http://") && !StartsWith(f, "www.");
    assert TrimStartMatches(u, "https://") == f;
  }

  /** The URL argument `https://youtu.be/abc123` loses its scheme and goes
      to the YouTube resolver. */
  lemma YoutuBeRoutes()
    ensures Fragment("https://youtu.be/abc123") == "youtu.be/abc123"
    ensures Classify("youtu.be/abc123") == Resolve(Youtube)
  {
    var f := "youtu.be/abc123";
    YoutuBeFragment();
    assert f[0] == 'y';
    assert StartsWith(f, YoutubePrefixes[0]);
    YoutubeFirst(f);
    DispatchIsFirstMatch(f);
  }
}
