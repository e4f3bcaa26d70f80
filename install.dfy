/**
 * The helpers of the self-installer: the release tuple of the running machine, the
 * executable name, the newest release advertised by the release index, the directory
 * layout of an installation and the creation of missing directories.
 */
module Install {
  import opened Wrappers
  import opened Text
  import opened Paths

  /** The platform part of a release name, from Node's `process.platform`; other platforms are refused. */
  function GetPlatform(platform: string): (r: Result<string>)
    ensures r.Success? <==> platform in {"linux", "darwin", "win32"}
    ensures platform == "linux" ==> r == Success("linux")
    ensures platform == "darwin" ==> r == Success("osx")
    ensures platform == "win32" ==> r == Success("windows")
    ensures r.Failure? ==> r.error == "unsupported platform: " + platform
  {
    match platform
    case "linux" => Success("linux")
    case "darwin" => Success("osx")
    case "win32" => Success("windows")
    case _ => Failure("unsupported platform: " + platform)
  }

  /** The architecture part of a release name, from Node's `process.arch`; only x64 builds are published. */
  function GetArch(arch: string): (r: Result<string>)
    ensures r.Success? <==> arch == "x64"
    ensures r.Success? ==> r.value == "x86_64"
    ensures r.Failure? ==> r.error == "unsupported arch: " + arch
  {
    match arch
    case "x64" => Success("x86_64")
    case _ => Failure("unsupported arch: " + arch)
  }

  /** The name of the executable inside a release archive for a release platform. */
  function GetExe(platform: string): (r: string)
    ensures r == "reproto.exe" <==> platform == "windows"
    ensures r != "reproto.exe" ==> r == "reproto"
  {
    match platform
    case "windows" => "reproto.exe"
    case _ => "reproto"
  }

  /** Two Node platforms never share a release platform, so the release names them unambiguously. */
  lemma {:induction false} GetPlatformInjective(a: string, b: string)
    requires GetPlatform(a).Success? && GetPlatform(b).Success?
    requires GetPlatform(a).value == GetPlatform(b).value
    ensures a == b
  {
  }

  /** The executable carries the Windows suffix exactly on a Windows machine. */
  lemma {:induction false} ExeOnWindows(platform: string)
    requires GetPlatform(platform).Success?
    ensures GetExe(GetPlatform(platform).value) == "reproto.exe" <==> platform == "win32"
  {
  }

  // ---------------------------------------------------------------------------
  // The release index

  predicate IsNewline(c: char) {
    c == '\n'
  }

  /**
   * The release named by the release index: its first line, trimmed. The split always
   * has a first piece, so the "not a release" error is never raised.
   */
  function ReleaseVersion(body: string): (r: string)
    ensures Unpadded(r)
    ensures '\n' !in r
  {
    var parts := Split(body, IsNewline);
    assert NoneWhere(parts[0], IsNewline);
    TrimInside(parts[0], '\n');
    Trim(parts[0])
  }

  lemma {:induction false} TrimInside(s: string, c: char)
    requires c !in s
    ensures c !in Trim(s)
  {
    var t := Trim(s);
    assert t == TrimEnd(TrimStart(s));
    var u := TrimStart(s);
    assert t == u[..|t|];
    assert u == s[|s| - |u|..];
    forall i | 0 <= i < |t| ensures t[i] != c {
      assert t[i] == s[|s| - |u| + i];
    }
  }

  /** An index whose first line names a release, surrounded by any padding, yields that release. */
  lemma {:induction false} ReleaseVersionFirstLine(pad1: string, version: string, pad2: string, rest: string)
    requires Unpadded(version) && '\n' !in version
    requires AllSpace(pad1) && AllSpace(pad2) && '\n' !in pad1 && '\n' !in pad2
    ensures ReleaseVersion(pad1 + version + pad2 + "\n" + rest) == version
  {
    var line := pad1 + version + pad2;
    assert NoneWhere(line, IsNewline) by {
      forall k | 0 <= k < |line| ensures !IsNewline(line[k]) {
        if k < |pad1| {
          assert line[k] == pad1[k];
        } else if k < |pad1| + |version| {
          assert line[k] == version[k - |pad1|];
        } else {
          assert line[k] == pad2[k - |pad1| - |version|];
        }
      }
    }
    SplitCons(line, '\n', rest, IsNewline);
    assert line + "\n" + rest == line + ['\n'] + rest;
    TrimPadded(pad1, version, pad2);
  }

  /** An index of a single line, with no newline at all, yields that line trimmed. */
  lemma {:induction false} ReleaseVersionOneLine(body: string)
    requires '\n' !in body
    ensures ReleaseVersion(body) == Trim(body)
  {
    assert NoneWhere(body, IsNewline);
    SplitWhole(body, IsNewline);
  }

  // ---------------------------------------------------------------------------
  // Creating missing directories

  /**
   * The directories `makeDirs` creates for `target`, in creation order: climbing from the
   * target through its parents, every one that does not exist is queued until the first
   * that does; the queue is then created outermost first. The climb ends because the
   * current directory "." and the root "/" are their own parents and always exist; the
   * "not a path" error is never raised, since a parent is never the empty string.
   */
  method MakeDirs(target: string, present: string -> bool) returns (created: seq<string>)
    requires present(".") && present("/")
    ensures present(target) <==> created == []
    ensures created != [] ==> created[|created| - 1] == target
    ensures created != [] ==> present(Dirname(created[0]))
    ensures forall i :: 0 <= i < |created| ==> !present(created[i])
    ensures forall i :: 0 < i < |created| ==> Dirname(created[i]) == created[i - 1]
  {
    var queue: seq<string> := [];
    var p := target;
    while !present(p)
      invariant queue == [] ==> p == target
      invariant queue != [] ==> queue[0] == target && p == Dirname(queue[|queue| - 1])
      invariant forall i :: 0 <= i < |queue| ==> !present(queue[i])
      invariant forall i :: 0 < i < |queue| ==> queue[i] == Dirname(queue[i - 1])
      decreases ClimbMeasure(p)
    {
      queue := queue + [p];
      p := Dirname(p);
    }
    created := [];
    var i := |queue|;
    while i > 0
      invariant 0 <= i <= |queue|
      invariant |created| == |queue| - i
      invariant forall k :: 0 <= k < |created| ==> created[k] == queue[|queue| - 1 - k]
    {
      i := i - 1;
      created := created + [queue[i]];
    }
  }

  /** What is left of the climb to "." or "/", where the parent of a directory is itself. */
  function ClimbMeasure(p: string): nat {
    if p == "." || p == "/" then 0 else |p| + 1
  }

  /** Every step up the tree shortens the climb, except at "." and "/". */
  lemma {:induction false} DirnameClimbs(p: string)
    requires p != "." && p != "/"
    ensures ClimbMeasure(Dirname(p)) < ClimbMeasure(p)
  {
  }

  // ---------------------------------------------------------------------------
  // The installation layout

  /** The environment variables the installer reads; an empty value counts as unset. */
  datatype InstallEnv = InstallEnv(home: Option<string>, xdgDataHome: Option<string>)

  /** The value of a variable when it is set to a non-empty string. */
  function Truthy(v: Option<string>): Option<string> {
    if v.Some? && v.value != "" then v else None
  }

  datatype Layout = Layout(
    dataHome: string,
    binHome: string,
    tuple: string,
    releases: string,
    archive: string,
    bin: string)

  /**
   * Where an installation of `version` goes on a machine with the given Node platform and
   * architecture: a missing home directory is refused first, then the platform, then the
   * architecture.
   */
  function InstallLayout(env: InstallEnv, platform: string, arch: string, version: string): (r: Result<Layout>)
    ensures r.Success? <==> Truthy(env.home).Some? && GetPlatform(platform).Success? && GetArch(arch).Success?
    ensures Truthy(env.home).None? ==> r == Failure("HOME: not an environment variable")
  {
    match Truthy(env.home)
    case None => Failure("HOME: not an environment variable")
    case Some(home) =>
      var dataHome := match Truthy(env.xdgDataHome)
        case Some(xdg) => xdg
        case None => Join(Join(home, ".local"), "share");
      var binHome := Join(Join(home, ".local"), "bin");
      match GetPlatform(platform)
      case Failure(e) => Failure(e)
      case Success(plat) =>
        match GetArch(arch)
        case Failure(e) => Failure(e)
        case Success(a) =>
          var tuple := version + "-" + plat + "-" + a;
          var versioned := "reproto-" + tuple;
          var releases := Join(dataHome, "releases");
          Success(Layout(
            dataHome, binHome, tuple, releases,
            Join(releases, versioned + ".tar.gz"),
            Join(binHome, GetExe(plat))))
  }

  lemma {:induction false} NoSlash(s: string)
    requires s in {"releases", "reproto", "reproto.exe"}
    ensures forall k :: 0 <= k < |s| ==> s[k] != '/'
  {
  }

  /**
   * The archive is `<data>/releases/reproto-<version>-<platform>-<arch>.tar.gz`, where `<data>` is
   * $XDG_DATA_HOME or else `<home>/.local/share`; the binary is `<home>/.local/bin/<exe>`.
   */
  lemma {:induction false} InstallLayoutPaths(env: InstallEnv, platform: string, arch: string, version: string)
    requires InstallLayout(env, platform, arch, version).Success?
    ensures var home := Truthy(env.home).value;
      var l := InstallLayout(env, platform, arch, version).value;
      && l.dataHome == (if Truthy(env.xdgDataHome).Some? then env.xdgDataHome.value else home + "/" + ".local" + "/" + "share")
      && l.binHome == home + "/" + ".local" + "/" + "bin"
      && l.tuple == version + "-" + GetPlatform(platform).value + "-" + "x86_64"
      && l.releases == l.dataHome + "/" + "releases"
      && l.archive == l.releases + "/" + ("reproto-" + l.tuple + ".tar.gz")
      && l.bin == l.binHome + "/" + GetExe(GetPlatform(platform).value)
  {
    var home := Truthy(env.home).value;
    assert home != "";
    var local := Join(home, ".local");
    assert local == home + "/" + ".local";
    assert GetArch(arch).value == "x86_64";
  }

  /**
   * The binary lies directly inside the directory `makeDirs` creates for it, and so does the
   * archive, provided the version holds no '/'.
   */
  lemma {:induction false} InstallLayoutParents(env: InstallEnv, platform: string, arch: string, version: string)
    requires InstallLayout(env, platform, arch, version).Success?
    ensures var l := InstallLayout(env, platform, arch, version).value;
      && Dirname(l.bin) == l.binHome
      && ('/' !in version ==> Dirname(l.archive) == l.releases)
  {
    InstallLayoutPaths(env, platform, arch, version);
    var l := InstallLayout(env, platform, arch, version).value;
    var plat := GetPlatform(platform).value;
    var exe := GetExe(plat);
    NoSlash(exe);
    assert |l.binHome| > 1 && |l.releases| > 1;
    assert l.bin == Join(l.binHome, exe);
    DirnameOfJoin(l.binHome, exe);
    if '/' !in version {
      var name := "reproto-" + l.tuple + ".tar.gz";
      assert l.archive == Join(l.releases, name);
      NameNoSlash(version, plat);
      DirnameOfJoin(l.releases, name);
    }
  }

  lemma {:induction false} NameNoSlash(version: string, plat: string)
    requires '/' !in version && plat in {"linux", "osx", "windows"}
    ensures var name := "reproto-" + (version + "-" + plat + "-" + "x86_64") + ".tar.gz";
      forall k :: 0 <= k < |name| ==> name[k] != '/'
  {
    var a := "reproto-";
    var c := "-" + plat + "-" + "x86_64" + ".tar.gz";
    var name := "reproto-" + (version + "-" + plat + "-" + "x86_64") + ".tar.gz";
    assert name == a + version + c;
    forall k | 0 <= k < |name| ensures name[k] != '/' {
      if k < |a| {
        assert name[k] == a[k];
      } else if k < |a| + |version| {
        assert name[k] == version[k - |a|];
      } else {
        assert name[k] == c[k - |a| - |version|];
      }
    }
  }
}
