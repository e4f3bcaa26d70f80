/**
 * Activation of the extension: the list of places the `reproto` executable may live,
 * the choice of the first one that exists, the reading of its `--version` output and
 * the choice between the language-client and the simple integration.
 */
module Extension {
  import opened Wrappers
  import opened Text
  import opened Lines
  import opened Paths
  import opened Editor
  import opened Install
  import opened Toolchain

  /** The `reproto` section of the user configuration. */
  datatype Config = Config(executable: Option<string>, extensionType: Option<string>)

  /** The environment variables discovery reads; an empty value counts as unset. */
  datatype Env = Env(reprotoHome: Option<string>, home: Option<string>, userProfile: Option<string>, path: Option<string>)

  /** What discovery produced: one description per rule, and the candidate paths in order. */
  datatype Discovery = Discovery(displays: seq<string>, candidates: seq<string>)

  // ---------------------------------------------------------------------------
  // Candidates

  predicate IsColon(c: char) { c == ':' }

  predicate IsSemicolon(c: char) { c == ';' }

  /** Node's `path.delimiter`: ';' on Windows, ':' elsewhere. */
  function PathDelimiter(platform: string): char -> bool {
    if platform == "win32" then IsSemicolon else IsColon
  }

  /** Every entry of $PATH joined with the executable name, in order. */
  function PathJoined(entries: seq<string>, exe: string): (r: seq<string>)
    ensures |r| == |entries|
  {
    seq(|entries|, i requires 0 <= i < |entries| => Join(entries[i], exe))
  }

  /** `path.join(dir, ".local", "bin", exe)`. */
  function LocalBin(dir: string, exe: string): string {
    Join(Join(Join(dir, ".local"), "bin"), exe)
  }

  // The descriptions of the rules, when the variable is set and when it is not.
  const ExecutableDisplay: string := "reproto.executable (user configuration)"
  const ExecutableMissing: string := "reproto.executable (user configuration) is not defined"
  const ReprotoHomeDisplay: string := "$REPROTO_HOME/reproto"
  const ReprotoHomeMissing: string := "$REPROTO_HOME is not defined"
  const HomeDisplay: string := "$HOME/.local/bin/reproto"
  const HomeMissing: string := "$HOME is not defined"
  const UserProfileDisplay: string := "$USERPROFILE/.local/bin/reproto"
  const UserProfileMissing: string := "$USERPROFILE is not defined"
  const PathDisplay: string := "$PATH"
  const PathMissing: string := "$PATH is not defined"

  /** The description of a rule: what it looks at, or that the variable it reads is not set. */
  function Describe(v: Option<string>, found: string, missing: string): string {
    if Truthy(v).Some? then found else missing
  }

  /** The descriptions of the five rules, in rule order. */
  function Displays(config: Config, env: Env): (r: seq<string>)
    ensures |r| == 5
  {
    [ Describe(config.executable, ExecutableDisplay, ExecutableMissing),
      Describe(env.reprotoHome, ReprotoHomeDisplay, ReprotoHomeMissing),
      Describe(env.home, HomeDisplay, HomeMissing),
      Describe(env.userProfile, UserProfileDisplay, UserProfileMissing),
      Describe(env.path, PathDisplay, PathMissing) ]
  }

  /** The configured executable, when set. */
  function ExecutableCandidates(config: Config): seq<string> {
    match Truthy(config.executable) case Some(e) => [e] case None => []
  }

  /**
   * $REPROTO_HOME gives two candidates, the directory itself and the bare executable
   * name, because the executable name is passed to the push rather than to the join.
   */
  function ReprotoHomeCandidates(env: Env, exe: string): seq<string> {
    match Truthy(env.reprotoHome) case Some(h) => [h, exe] case None => []
  }

  /** `<dir>/.local/bin/<exe>` for a home directory, when set. */
  function LocalBinCandidates(dir: Option<string>, exe: string): seq<string> {
    match Truthy(dir) case Some(d) => [LocalBin(d, exe)] case None => []
  }

  /** Every $PATH entry joined with the executable name, when $PATH is set. */
  function PathCandidates(env: Env, platform: string, exe: string): seq<string> {
    match Truthy(env.path) case Some(p) => PathJoined(Split(p, PathDelimiter(platform)), exe) case None => []
  }

  /** The candidates, rule after rule, for the executable name `exe` of the platform. */
  function CandidateList(config: Config, env: Env, platform: string, exe: string): seq<string> {
    CandidatesBeforePath(config, env, exe) + PathCandidates(env, platform, exe)
  }

  /** The candidates of the rules before $PATH. */
  function CandidatesBeforePath(config: Config, env: Env, exe: string): seq<string> {
    ExecutableCandidates(config) + ReprotoHomeCandidates(env, exe)
    + LocalBinCandidates(env.home, exe) + LocalBinCandidates(env.userProfile, exe)
  }

  /** One candidate for each set rule, two for $REPROTO_HOME, and one per $PATH entry. */
  lemma {:induction false} CandidateCount(config: Config, env: Env, platform: string, exe: string)
    ensures |CandidateList(config, env, platform, exe)|
         == (if Truthy(config.executable).Some? then 1 else 0)
          + (if Truthy(env.reprotoHome).Some? then 2 else 0)
          + (if Truthy(env.home).Some? then 1 else 0)
          + (if Truthy(env.userProfile).Some? then 1 else 0)
          + (if Truthy(env.path).Some? then |Split(env.path.value, PathDelimiter(platform))| else 0)
  {
  }

  /** $REPROTO_HOME contributes the directory and then the bare executable name, right after the configured executable. */
  lemma {:induction false} ReprotoHomeGivesTwo(config: Config, env: Env, platform: string, exe: string)
    requires Truthy(env.reprotoHome).Some?
    ensures var k := if Truthy(config.executable).Some? then 1 else 0;
      var cs := CandidateList(config, env, platform, exe);
      && k + 2 <= |cs|
      && cs[k] == env.reprotoHome.value
      && cs[k + 1] == exe
  {
  }

  /** The candidates end with the $PATH entries in order, each joined with the executable name. */
  lemma {:induction false} PathCandidatesLast(config: Config, env: Env, platform: string, exe: string)
    requires Truthy(env.path).Some?
    ensures var entries := Split(env.path.value, PathDelimiter(platform));
      var cs := CandidateList(config, env, platform, exe);
      && |entries| <= |cs|
      && forall i :: 0 <= i < |entries| ==> cs[|cs| - |entries| + i] == Join(entries[i], exe)
  {
    CandidateListWithPath(config, env, platform, exe);
    PathJoinedAfter(CandidateList(config, env, platform, exe), CandidatesBeforePath(config, env, exe),
                    Split(env.path.value, PathDelimiter(platform)), exe);
  }

  lemma {:induction false} CandidateListWithPath(config: Config, env: Env, platform: string, exe: string)
    requires Truthy(env.path).Some?
    ensures CandidateList(config, env, platform, exe)
         == CandidatesBeforePath(config, env, exe) + PathJoined(Split(env.path.value, PathDelimiter(platform)), exe)
  {
    assert Truthy(env.path) == env.path;
  }

  lemma {:induction false} PathJoinedAfter(cs: seq<string>, prefix: seq<string>, entries: seq<string>, exe: string)
    requires cs == prefix + PathJoined(entries, exe)
    ensures |entries| <= |cs|
    ensures forall i :: 0 <= i < |entries| ==> cs[|cs| - |entries| + i] == Join(entries[i], exe)
  {
    forall i | 0 <= i < |entries|
      ensures cs[|cs| - |entries| + i] == Join(entries[i], exe)
    {
      assert cs[|prefix| + i] == PathJoined(entries, exe)[i];
    }
  }

  /** The `forEach` over the $PATH entries: pushes each entry joined with the executable name. */
  method PushJoined(candidates: seq<string>, entries: seq<string>, exe: string) returns (r: seq<string>)
    ensures r == candidates + PathJoined(entries, exe)
  {
    r := candidates;
    var i := 0;
    while i < |entries|
      invariant 0 <= i <= |entries|
      invariant r == candidates + PathJoined(entries[..i], exe)
    {
      assert PathJoined(entries[..i + 1], exe) == PathJoined(entries[..i], exe) + [Join(entries[i], exe)];
      r := r + [Join(entries[i], exe)];
      i := i + 1;
    }
    assert entries[..i] == entries;
  }

  /**
   * Builds the descriptions and the candidates rule by rule. The platform is looked up
   * first, so an unsupported platform throws before anything is listed.
   */
  method DetectCandidates(config: Config, env: Env, platform: string) returns (r: Result<Discovery>)
    ensures r.Success? <==> GetPlatform(platform).Success?
    ensures r.Failure? ==> r.error == GetPlatform(platform).error
    ensures r.Success? ==> r.value.displays == Displays(config, env)
    ensures r.Success? ==> r.value.candidates == CandidateList(config, env, platform, GetExe(GetPlatform(platform).value))
  {
    var plat := GetPlatform(platform);
    if plat.Failure? {
      return Failure(plat.error);
    }
    var displays, candidates := ListCandidates(config, env, platform, GetExe(plat.value));
    r := Success(Discovery(displays, candidates));
  }

  /** The pushes of the five rules, once the executable name is known. */
  method ListCandidates(config: Config, env: Env, platform: string, exe: string)
    returns (displays: seq<string>, candidates: seq<string>)
    ensures displays == Displays(config, env)
    ensures candidates == CandidateList(config, env, platform, exe)
  {
    displays, candidates := PushExecutable(config, [], []);
    displays, candidates := PushReprotoHome(env, exe, displays, candidates);
    displays, candidates := PushLocalBin(env.home, exe, HomeDisplay, HomeMissing, displays, candidates);
    displays, candidates := PushLocalBin(env.userProfile, exe, UserProfileDisplay, UserProfileMissing, displays, candidates);
    assert candidates == CandidatesBeforePath(config, env, exe);
    displays, candidates := PushPath(env, platform, exe, displays, candidates);
  }

  /** The rule for the configured executable. */
  method PushExecutable(config: Config, displays: seq<string>, candidates: seq<string>)
    returns (displays': seq<string>, candidates': seq<string>)
    ensures displays' == displays + [Describe(config.executable, ExecutableDisplay, ExecutableMissing)]
    ensures candidates' == candidates + ExecutableCandidates(config)
  {
    match Truthy(config.executable) {
      case Some(e) =>
        displays' := displays + [ExecutableDisplay];
        candidates' := candidates + [e];
      case None =>
        displays' := displays + [ExecutableMissing];
        candidates' := candidates;
    }
  }

  /** The rule for $REPROTO_HOME. */
  method PushReprotoHome(env: Env, exe: string, displays: seq<string>, candidates: seq<string>)
    returns (displays': seq<string>, candidates': seq<string>)
    ensures displays' == displays + [Describe(env.reprotoHome, ReprotoHomeDisplay, ReprotoHomeMissing)]
    ensures candidates' == candidates + ReprotoHomeCandidates(env, exe)
  {
    match Truthy(env.reprotoHome) {
      case Some(h) =>
        displays' := displays + [ReprotoHomeDisplay];
        candidates' := candidates + [h, exe];
      case None =>
        displays' := displays + [ReprotoHomeMissing];
        candidates' := candidates;
    }
  }

  /** The rules for $HOME and $USERPROFILE. */
  method PushLocalBin(dir: Option<string>, exe: string, found: string, missing: string,
                      displays: seq<string>, candidates: seq<string>)
    returns (displays': seq<string>, candidates': seq<string>)
    ensures displays' == displays + [Describe(dir, found, missing)]
    ensures candidates' == candidates + LocalBinCandidates(dir, exe)
  {
    match Truthy(dir) {
      case Some(d) =>
        displays' := displays + [found];
        candidates' := candidates + [LocalBin(d, exe)];
      case None =>
        displays' := displays + [missing];
        candidates' := candidates;
    }
  }

  /** The rule for $PATH. */
  method PushPath(env: Env, platform: string, exe: string, displays: seq<string>, candidates: seq<string>)
    returns (displays': seq<string>, candidates': seq<string>)
    ensures displays' == displays + [Describe(env.path, PathDisplay, PathMissing)]
    ensures candidates' == candidates + PathCandidates(env, platform, exe)
  {
    match Truthy(env.path) {
      case Some(p) =>
        displays' := displays + [PathDisplay];
        candidates' := PushJoined(candidates, Split(p, PathDelimiter(platform)), exe);
      case None =>
        displays' := displays + [PathMissing];
        candidates' := candidates;
    }
  }

  // ---------------------------------------------------------------------------
  // Choosing the executable

  /** A candidate is usable when it is a non-empty path that exists. */
  predicate Usable(c: string, present: string -> bool) {
    c != "" && present(c)
  }

  /** The position of the first usable candidate, or -1. */
  function FirstUsable(cs: seq<string>, present: string -> bool): (r: int)
    ensures -1 <= r < |cs|
    ensures r == -1 <==> forall i :: 0 <= i < |cs| ==> !Usable(cs[i], present)
    ensures 0 <= r ==> Usable(cs[r], present) && forall i :: 0 <= i < r ==> !Usable(cs[i], present)
  {
    if cs == [] then -1
    else if Usable(cs[0], present) then 0
    else
      var k := FirstUsable(cs[1..], present);
      if k < 0 then -1 else k + 1
  }

  /** The handle of the first usable candidate, run in the workspace root; none when no candidate is usable. */
  method DetectReproto(candidates: seq<string>, present: string -> bool, rootPath: Option<string>)
    returns (r: Option<Reproto>)
    ensures r.None? <==> FirstUsable(candidates, present) == -1
    ensures r.Some? ==> r.value == Reproto(candidates[FirstUsable(candidates, present)], rootPath)
  {
    var i := 0;
    while i < |candidates|
      invariant 0 <= i <= |candidates|
      invariant forall j :: 0 <= j < i ==> !Usable(candidates[j], present)
    {
      var c := candidates[i];
      if c != "" && present(c) {
        return Some(Reproto(c, rootPath));
      }
      i := i + 1;
    }
    return None;
  }

  // ---------------------------------------------------------------------------
  // The version

  /** A version as read: three numbers, each possibly NaN. */
  datatype Triple = Triple(major: Num, minor: Num, patch: Num)

  predicate IsBlank(c: char) { c == ' ' || c == '\t' }

  predicate IsVersionSeparator(c: char) { c == '.' || c == '-' }

  /**
   * The version in `reproto X.Y.Z…` output: the words are split at runs of spaces and
   * tabs, the second word at every '.' and '-', and the first three parts are read with
   * `parseInt`. Anything without a "reproto" first word and three parts gives none.
   */
  function ParseVersion(output: string): (r: Option<Triple>)
    ensures r.Some? <==>
      var p := SplitRuns(output, IsBlank);
      |p| >= 2 && p[0] == "reproto" && |Split(p[1], IsVersionSeparator)| >= 3
  {
    var p := SplitRuns(output, IsBlank);
    if |p| >= 2 && p[0] == "reproto" then
      var c := Split(p[1], IsVersionSeparator);
      if |c| >= 3 then Some(Triple(ParseInt(c[0]), ParseInt(c[1]), ParseInt(c[2])))
      else None
    else None
  }

  /** `reproto <v>` splits into the two words. */
  lemma {:induction false} VersionWords(v: string)
    requires v != [] && NoneWhere(v, IsBlank)
    ensures SplitRuns("reproto " + v, IsBlank) == ["reproto", v]
  {
    assert "reproto " + v == "reproto" + " " + v;
    SplitRunsCons("reproto", " ", v, IsBlank);
    assert FirstWhere(v, IsBlank) == -1;
  }

  /** The last number of a version is the first part of `<c><suffix>`. */
  lemma {:induction false} VersionPartLast(c: string, suffix: string)
    requires NoneWhere(c, IsVersionSeparator)
    requires suffix == [] || suffix[0] == '-'
    ensures Split(c + suffix, IsVersionSeparator)[0] == c
  {
    if suffix == [] {
      assert c + suffix == c;
      SplitWhole(c, IsVersionSeparator);
    } else {
      assert c + suffix == c + ['-'] + suffix[1..];
      SplitCons(c, '-', suffix[1..], IsVersionSeparator);
    }
  }

  /** `<a>.<b>.<c><suffix>` splits into `a`, `b`, `c` and the parts of the suffix. */
  lemma {:induction false} VersionParts(a: string, b: string, c: string, suffix: string)
    requires NoneWhere(a, IsVersionSeparator) && NoneWhere(b, IsVersionSeparator) && NoneWhere(c, IsVersionSeparator)
    requires suffix == [] || suffix[0] == '-'
    ensures var parts := Split(a + ['.'] + (b + ['.'] + (c + suffix)), IsVersionSeparator);
      |parts| >= 3 && parts[0] == a && parts[1] == b && parts[2] == c
  {
    var t2 := c + suffix;
    VersionPartLast(c, suffix);
    var t1 := b + ['.'] + t2;
    SplitCons(b, '.', t2, IsVersionSeparator);
    SplitCons(a, '.', t1, IsVersionSeparator);
  }

  /** The text `<major>.<minor>.<patch><suffix>` a release prints as its version. */
  function VersionText(major: nat, minor: nat, patch: nat, suffix: string): string {
    Dec(major) + ['.'] + (Dec(minor) + ['.'] + (Dec(patch) + suffix))
  }

  /** The version the program printed is read back, whatever pre-release suffix follows it. */
  lemma {:induction false} ParseVersionPrinted(major: nat, minor: nat, patch: nat, suffix: string)
    requires NoneWhere(suffix, IsBlank)
    requires suffix == [] || suffix[0] == '-'
    ensures ParseVersion("reproto " + VersionText(major, minor, patch, suffix))
         == Some(Triple(Int(major), Int(minor), Int(patch)))
  {
    var a, b, c := Dec(major), Dec(minor), Dec(patch);
    DecNoBlank(major);
    VersionTextNoBlank(a, b, c, suffix);
    VersionWords(VersionText(major, minor, patch, suffix));
    DecNoSeparator(major);
    DecNoSeparator(minor);
    DecNoSeparator(patch);
    VersionParts(a, b, c, suffix);
    ParseIntDec(major);
    ParseIntDec(minor);
    ParseIntDec(patch);
  }

  /** Gluing blank-free pieces with '.' gives blank-free text. */
  lemma {:induction false} VersionTextNoBlank(a: string, b: string, c: string, suffix: string)
    requires a != [] && NoneWhere(a, IsBlank) && NoneWhere(b, IsBlank) && NoneWhere(c, IsBlank) && NoneWhere(suffix, IsBlank)
    ensures var v := a + ['.'] + (b + ['.'] + (c + suffix));
      v != [] && NoneWhere(v, IsBlank)
  {
    var dot: string := ['.'];
    assert NoneWhere(dot, IsBlank);
    NoneWhereConcat(c, suffix, IsBlank);
    NoneWhereConcat(b, dot, IsBlank);
    NoneWhereConcat(b + dot, c + suffix, IsBlank);
    NoneWhereConcat(a, dot, IsBlank);
    NoneWhereConcat(a + dot, b + dot + (c + suffix), IsBlank);
  }

  lemma {:induction false} DecNoBlank(n: nat)
    ensures NoneWhere(Dec(n), IsBlank)
  {
    var d := Dec(n);
    forall i | 0 <= i < |d| ensures !IsBlank(d[i]) {
      assert '0' <= d[i] <= '9';
    }
  }

  lemma {:induction false} DecNoSeparator(n: nat)
    ensures NoneWhere(Dec(n), IsVersionSeparator)
  {
    var d := Dec(n);
    forall i | 0 <= i < |d| ensures !IsVersionSeparator(d[i]) {
      assert '0' <= d[i] <= '9';
    }
  }

  /** Output that is a single word, such as a bare version number, gives no version. */
  lemma {:induction false} ParseVersionOneWord(output: string)
    requires NoneWhere(output, IsBlank)
    ensures ParseVersion(output) == None
  {
    assert FirstWhere(output, IsBlank) == -1;
  }

  /**
   * A major part that is not a number still gives a version, with a NaN major: the
   * output is not treated as unreadable. (`x.3.35` is an instance.)
   */
  lemma {:induction false} ParseVersionNaN(word: string, minor: nat, patch: nat)
    requires word != [] && NoneWhere(word, IsBlank) && NoneWhere(word, IsVersionSeparator)
    requires !IsSpace(word[0]) && word[0] != '-' && word[0] != '+' && !IsDigit(word[0], 10)
    ensures ParseVersion("reproto " + (word + ['.'] + (Dec(minor) + ['.'] + Dec(patch))))
         == Some(Triple(NaN, Int(minor), Int(patch)))
  {
    var b, c := Dec(minor), Dec(patch);
    DecNoBlank(minor);
    DecNoBlank(patch);
    assert c + [] == c;
    VersionTextNoBlank(word, b, c, []);
    VersionWords(word + ['.'] + (b + ['.'] + c));
    DecNoSeparator(minor);
    DecNoSeparator(patch);
    VersionParts(word, b, c, []);
    ParseIntNoDigits(word);
    ParseIntDec(minor);
    ParseIntDec(patch);
  }

  /** JavaScript's `String(n)` of a number read by `parseInt`. */
  function NumText(n: Num): string {
    match n
    case NaN => "NaN"
    case Int(v) => IntText(v)
  }

  function IntText(v: int): string {
    if v < 0 then "-" + Dec(-v) else Dec(v)
  }

  /** `String(e)` of the error a failed run rejects with. */
  function FailureText(f: Failure): string {
    match f
    case IllegalJson => "Error: illegal json on stdout"
    case NonZeroExit(code) =>
      "Error: command exited with non-zero exit status: " + (match code case Some(c) => IntText(c) case None => "null")
  }

  /** The lines reading the version logs: the version read, the failure, or nothing when the output is not understood. */
  function VersionLines(reproto: Reproto, version: Outcome<string>): seq<string> {
    match version
    case Rejected(f) => ["failed to detect version: " + reproto.ToString() + ":", FailureText(f)]
    case Resolved(s) =>
      match ParseVersion(s)
      case Some(t) =>
        ["detected `" + reproto.ToString() + "` version: "
         + NumText(t.major) + "." + NumText(t.minor) + "." + NumText(t.patch)]
      case None => []
  }

  /** The version `detectVersion` returns for an outcome of `reproto.version()`. */
  function ParseVersionOf(version: Outcome<string>): Option<Triple> {
    if version.Resolved? then ParseVersion(version.value) else None
  }

  /**
   * Reads the version from the trimmed output of `reproto --version`: none when the run
   * failed or the output is not understood.
   */
  method DetectVersion(out: OutputChannel, reproto: Reproto, version: Outcome<string>) returns (r: Option<Triple>)
    modifies out
    ensures r == ParseVersionOf(version)
    ensures out.text == old(out.text) + Unlines(VersionLines(reproto, version))
  {
    r := ParseVersionOf(version);
    out.AppendLines(VersionLines(reproto, version));
  }

  // ---------------------------------------------------------------------------
  // The extension type

  /**
   * The type a version calls for: "language-client" when major >= 0, minor >= 3 and
   * patch >= 35 all hold (each false for NaN), otherwise the default.
   */
  function DefaultExtensionType(version: Option<Triple>, defaultType: string): (r: string)
    ensures r == "language-client" || r == defaultType
    ensures version.None? ==> r == defaultType
    ensures r != defaultType <==>
      && version.Some?
      && version.value.major.AtLeast(0) && version.value.minor.AtLeast(3) && version.value.patch.AtLeast(35)
      && defaultType != "language-client"
  {
    match version
    case None => defaultType
    case Some(t) =>
      if t.major.AtLeast(0) && t.minor.AtLeast(3) && t.patch.AtLeast(35) then "language-client"
      else defaultType
  }

  /**
   * The threshold compares each component on its own, so 0.3.35 gets the language client
   * while 0.3.34, and also the later 0.4.0 and 1.0.0, get the default.
   */
  lemma {:induction false} ThresholdIsPerComponent(defaultType: string)
    requires defaultType != "language-client"
    ensures DefaultExtensionType(Some(Triple(Int(0), Int(3), Int(35))), defaultType) == "language-client"
    ensures DefaultExtensionType(Some(Triple(Int(0), Int(3), Int(34))), defaultType) == defaultType
    ensures DefaultExtensionType(Some(Triple(Int(0), Int(4), Int(0))), defaultType) == defaultType
    ensures DefaultExtensionType(Some(Triple(Int(1), Int(0), Int(0))), defaultType) == defaultType
  {
  }

  /** The configured type when it is set to a non-empty string, otherwise the one the version calls for, defaulting to "simple". */
  function ActualType(configured: Option<string>, version: Triple): (r: string)
    ensures Truthy(configured).Some? ==> r == configured.value
    ensures Truthy(configured).None? ==> r in {"language-client", "simple"}
    ensures Truthy(configured).None? ==>
      (r == "language-client" <==> version.major.AtLeast(0) && version.minor.AtLeast(3) && version.patch.AtLeast(35))
  {
    match Truthy(configured)
    case Some(t) => t
    case None => DefaultExtensionType(Some(version), "simple")
  }

  /** The integrations the extension can start. */
  datatype Handler = LanguageClient | SimpleBuilder | Unsupported

  function HandlerOf(kind: string): (h: Handler)
    ensures h == LanguageClient <==> kind == "language-client"
    ensures h == SimpleBuilder <==> kind == "simple"
  {
    match kind
    case "language-client" => LanguageClient
    case "simple" => SimpleBuilder
    case _ => Unsupported
  }

  // ---------------------------------------------------------------------------
  // Activation

  /** How activation ends. */
  datatype Activation =
    | Threw(error: string)
    | Dispatched(reproto: Reproto, version: Triple, kind: string, handler: Handler)
    | NotFound(displays: seq<string>)

  /** The report of a failed discovery: a heading, then every description numbered from 0. */
  function NotFoundReport(displays: seq<string>): seq<string> {
    ["usable `reproto` command could not be found!", "looked in the following places:"] + Numbered(displays)
  }

  function Numbered(displays: seq<string>): seq<string> {
    if displays == [] then []
    else Numbered(displays[..|displays| - 1]) + ["#" + Dec(|displays| - 1) + ": " + displays[|displays| - 1]]
  }

  lemma {:induction false} NumberedSpec(displays: seq<string>)
    ensures |Numbered(displays)| == |displays|
    ensures forall i: nat :: i < |displays| ==> Numbered(displays)[i] == "#" + Dec(i) + ": " + displays[i]
  {
    if displays != [] {
      NumberedSpec(displays[..|displays| - 1]);
    }
  }

  /** Writes the report of a failed discovery to the output channel. */
  method ReportNotFound(out: OutputChannel, displays: seq<string>)
    modifies out
    ensures out.text == old(out.text) + Unlines(NotFoundReport(displays))
  {
    out.AppendLines(NotFoundReport(displays));
  }

  /**
   * What activation does once discovery has produced `displays` and `cs`: with the first
   * usable candidate and a version read from it, it dispatches to the configured or
   * computed type and logs the version and the executable used; otherwise it reports the
   * descriptions after whatever reading the version logged. `text0` and `text` are the
   * output channel before and after.
   */
  ghost predicate Activated(cs: seq<string>, displays: seq<string>, config: Config, present: string -> bool,
                            rootPath: Option<string>, versionOf: Reproto -> Outcome<string>,
                            r: Activation, text0: string, text: string)
  {
    var i := FirstUsable(cs, present);
    var version := if i < 0 then None else ParseVersionOf(Version(versionOf(Reproto(cs[i], rootPath))));
    var logged := if i < 0 then "" else Unlines(VersionLines(Reproto(cs[i], rootPath), Version(versionOf(Reproto(cs[i], rootPath)))));
    && !r.Threw?
    && (r.Dispatched? <==> version.Some?)
    && (r.Dispatched? ==>
          && r.reproto == Reproto(cs[i], rootPath)
          && r.version == version.value
          && r.kind == ActualType(config.extensionType, version.value)
          && r.handler == HandlerOf(r.kind)
          && text == text0 + logged + ("using reproto from `" + cs[i] + "`") + "\n")
    && (r.NotFound? ==>
          && r.displays == displays
          && text == text0 + logged + Unlines(NotFoundReport(displays)))
  }

  /** Activation after a successful discovery. */
  method ActivateWith(cs: seq<string>, displays: seq<string>, config: Config, present: string -> bool,
                      rootPath: Option<string>, versionOf: Reproto -> Outcome<string>, out: OutputChannel)
    returns (r: Activation)
    modifies out
    ensures Activated(cs, displays, config, present, rootPath, versionOf, r, old(out.text), out.text)
  {
    var reproto := DetectReproto(cs, present, rootPath);
    if reproto.Some? {
      var version := DetectVersion(out, reproto.value, Version(versionOf(reproto.value)));
      if version.Some? {
        out.AppendLine("using reproto from `" + reproto.value.ToString() + "`");
        var kind := ActualType(config.extensionType, version.value);
        return Dispatched(reproto.value, version.value, kind, HandlerOf(kind));
      }
    }
    ReportNotFound(out, displays);
    return NotFound(displays);
  }

  /**
   * Activation: discover the candidates, take the first usable one and read its version.
   * With a version, the configured or computed type picks the integration; with no
   * usable candidate, or no version, the descriptions of the rules are reported.
   * `versionOf` is the outcome of `reproto --version` for a handle. Discovery throws on
   * an unsupported platform, before anything is logged.
   */
  method InternalActivate(config: Config, env: Env, platform: string, present: string -> bool,
                          rootPath: Option<string>, versionOf: Reproto -> Outcome<string>, out: OutputChannel)
    returns (r: Activation)
    modifies out
    ensures r.Threw? <==> GetPlatform(platform).Failure?
    ensures r.Threw? ==> out.text == old(out.text)
    ensures GetPlatform(platform).Success? ==>
      Activated(CandidateList(config, env, platform, GetExe(GetPlatform(platform).value)), Displays(config, env),
                config, present, rootPath, versionOf, r, old(out.text), out.text)
  {
    var found := DetectCandidates(config, env, platform);
    if found.Failure? {
      return Threw(found.error);
    }
    r := ActivateWith(found.value.candidates, found.value.displays, config, present, rootPath, versionOf, out);
  }
}
