/**
 * The shared build helper: the platform named by `ARCH`, and the linker
 * script `link_helper` picks from `TARGET` and `CARGO_MANIFEST_DIR`. Each
 * environment variable is an `Option<string>` input (None when unset), the
 * files present on disk are the set `existing`, the `cargo:` lines printed
 * are returned as strings, and a panic is an `Err`.
 */
module BuildHelper {
  import opened Wrappers
  import opened Text

  datatype Platform = Nemu | Qemu

  /** `Platform::fmt`. */
  function Fmt(p: Platform): string {
    match p
    case Nemu => "nemu"
    case Qemu => "qemu"
  }

  /** `Platform::from_str`: lower-cases, then matches the two names. */
  function FromStr(s: string): Option<Platform> {
    var l := Lower(s);
    if l == "nemu" then Some(Nemu) else if l == "qemu" then Some(Qemu) else None
  }

  /** from_str accepts exactly the two names, in any letter case. */
  lemma FromStrSpec(s: string, p: Platform)
    ensures FromStr(s) == Some(p) <==> Lower(s) == Fmt(p)
    ensures FromStr(s) == None <==> Lower(s) != "nemu" && Lower(s) != "qemu"
  {
  }

  /** Formatting a platform and parsing it back, in lower or upper case, gives the platform. */
  lemma FromStrFmt(p: Platform)
    ensures FromStr(Fmt(p)) == Some(p)
    ensures FromStr(Upper(Fmt(p))) == Some(p)
  {
    CaseMappings(Fmt(p));
    assert Lower(Fmt(p)) == Fmt(p);
  }

  /** What `get_platform` prints, one case per branch. */
  datatype PlatformNote = ArchNotSet | InvalidArchFormat(arch: string) | UsingPlatform(name: string) | UnknownPlatform(name: string)

  function NoteLine(n: PlatformNote): string {
    match n
    case ArchNotSet => "cargo:warning=ARCH not set, defaulting to nemu (rust-analyzer mode)"
    case InvalidArchFormat(a) => "cargo:warning=Invalid ARCH format '" + a + "', defaulting to nemu"
    case UsingPlatform(s) => "cargo:warning=Using platform: " + s
    case UnknownPlatform(s) => "cargo:warning=Unknown platform '" + s + "', defaulting to nemu"
  }

  /** `get_platform`: the text after the first '-' of ARCH names the platform; every failure falls back to Nemu. */
  function GetPlatform(arch: Option<string>): (Platform, PlatformNote) {
    match arch
    case None => (Nemu, ArchNotSet)
    case Some(a) =>
      match SplitOnce(a, '-')
      case None => (Nemu, InvalidArchFormat(a))
      case Some((_, name)) =>
        match FromStr(name)
        case Some(p) => (p, UsingPlatform(name))
        case None => (Nemu, UnknownPlatform(name))
  }

  /** ARCH is a c-free head, the first separator c, and the platform text. */
  predicate NamesAfterFirstDash(a: string, name: string) {
    exists k :: 0 <= k < |a| && a[k] == '-' && '-' !in a[..k] && a[k + 1..] == name
  }

  lemma FirstDashUnique(a: string, k: nat)
    requires k < |a| && a[k] == '-' && '-' !in a[..k]
    ensures IndexOf(a, '-') == Some(k)
  {
    assert forall j :: 0 <= j < k ==> a[..k][j] == a[j];
  }

  /** The only text that follows a first '-' is the text after the first '-'. */
  lemma NamesAfterFirstDashIsSplit(a: string, name: string)
    requires NamesAfterFirstDash(a, name)
    ensures IndexOf(a, '-').Some? && name == a[IndexOf(a, '-').value + 1..]
  {
    var k :| 0 <= k < |a| && a[k] == '-' && '-' !in a[..k] && a[k + 1..] == name;
    FirstDashUnique(a, k);
  }

  /**
   * `get_platform` picks Qemu exactly when ARCH is set and the text after
   * its first '-' is "qemu" in some letter case; in every other case (unset,
   * no '-', unknown name) the result is Nemu.
   */
  lemma GetPlatformSpec(arch: Option<string>)
    ensures GetPlatform(arch).0 == Qemu <==>
      arch.Some? && exists name :: NamesAfterFirstDash(arch.value, name) && Lower(name) == "qemu"
    ensures arch.None? ==> GetPlatform(arch) == (Nemu, ArchNotSet)
    ensures arch.Some? && '-' !in arch.value ==> GetPlatform(arch) == (Nemu, InvalidArchFormat(arch.value))
  {
    if arch.Some? {
      var a := arch.value;
      SplitOnceSpec(a, '-');
      forall n | NamesAfterFirstDash(a, n)
        ensures IndexOf(a, '-').Some? && n == a[IndexOf(a, '-').value + 1..]
      {
        NamesAfterFirstDashIsSplit(a, n);
      }
      if IndexOf(a, '-').Some? {
        var i := IndexOf(a, '-').value;
        assert a[..i] == SplitOnce(a, '-').value.0;
        assert NamesAfterFirstDash(a, a[i + 1..]);
      }
    }
  }

  /** "a-qemu" selects Qemu. */
  lemma GetPlatformQemu()
    ensures GetPlatform(Some("a-qemu")) == (Qemu, UsingPlatform("qemu"))
  {
    FirstDashUnique("a-qemu", 1);
    assert "a-qemu"[2..] == "qemu";
    assert Lower("qemu") == "qemu";
  }

  /** The platform name is matched in any letter case. */
  lemma GetPlatformUpperCase()
    ensures GetPlatform(Some("rv-QEMU")) == (Qemu, UsingPlatform("QEMU"))
  {
    FirstDashUnique("rv-QEMU", 2);
    assert "rv-QEMU"[3..] == "QEMU";
    assert Lower("QEMU") == "qemu";
  }

  /** "a-qemu-x" names "qemu-x", which is unknown, so Nemu is used. */
  lemma GetPlatformSecondDash()
    ensures GetPlatform(Some("a-qemu-x")) == (Nemu, UnknownPlatform("qemu-x"))
  {
    FirstDashUnique("a-qemu-x", 1);
    assert "a-qemu-x"[2..] == "qemu-x";
    assert Lower("qemu-x")[4] == '-';
  }

  // ----- paths -----

  /**
   * A path as its components: whether it starts at the root, then the
   * names between separators. A leading "." of a relative path is kept;
   * every other "." and every empty piece is dropped.
   */
  datatype Path = Path(absolute: bool, components: seq<string>)

  function Normalise(pieces: seq<string>): (r: seq<string>)
    ensures forall k :: 0 <= k < |r| ==> r[k] != "" && r[k] != "."
    ensures |r| <= |pieces|
  {
    if pieces == [] then []
    else if pieces[0] == "" || pieces[0] == "." then Normalise(pieces[1..])
    else [pieces[0]] + Normalise(pieces[1..])
  }

  /** `PathBuf::from(s)`, read as its components. */
  function ParsePath(s: string): Path {
    var pieces := Split(s, '/');
    Path(
      |s| > 0 && s[0] == '/',
      if pieces[0] == "." then ["."] + Normalise(pieces[1..]) else Normalise(pieces))
  }

  /** `Path::parent`: None for the root and for the empty path, otherwise the path without its last component. */
  function Parent(p: Path): (r: Option<Path>)
    ensures r.Some? <==> p.components != []
    ensures r.Some? ==> r.value.absolute == p.absolute && r.value.components + [p.components[|p.components| - 1]] == p.components
  {
    if p.components == [] then None
    else Some(Path(p.absolute, p.components[..|p.components| - 1]))
  }

  /**
   * `Path::join(s)`: an absolute s replaces the path; joining onto the empty
   * path gives s itself; otherwise the components of s follow those of the
   * path.
   */
  function JoinPath(p: Path, s: string): Path {
    var q := ParsePath(s);
    if q.absolute then q
    else if p == Path(false, []) then q
    else Path(p.absolute, p.components + Normalise(Split(s, '/')))
  }

  /** `Path::display`, on the components. */
  function Display(p: Path): string {
    (if p.absolute then "/" else "") + Join(p.components, "/")
  }

  /** A component list that is already in normal form is its own normal form. */
  lemma {:induction false} NormaliseKeeps(cs: seq<string>)
    requires forall k :: 0 <= k < |cs| ==> cs[k] != "" && cs[k] != "."
    ensures Normalise(cs) == cs
  {
    if cs != [] {
      NormaliseKeeps(cs[1..]);
      assert cs == [cs[0]] + cs[1..];
    }
  }

  /** Reading back the displayed text of an absolute path gives the path. */
  lemma DisplayParse(p: Path)
    requires p.absolute
    requires forall k :: 0 <= k < |p.components| ==>
      p.components[k] != "" && p.components[k] != "." && '/' !in p.components[k]
    ensures ParsePath(Display(p)) == p
  {
    var cs := p.components;
    var j := Join(cs, "/");
    var s := Display(p);
    assert s == "/" + j;
    assert IndexOf(s, '/') == Some(0);
    assert s[1..] == j;
    assert Split(s, '/') == [""] + Split(j, '/');
    if cs == [] {
      assert IndexOf(j, '/') == None;
      assert Normalise(["", ""]) == Normalise([""]) == [];
    } else {
      JoinSplit(cs, '/');
      NormaliseKeeps(cs);
      assert ([""] + cs)[1..] == cs;
    }
  }

  // ----- link_helper -----

  datatype LinkError = TargetNotSet | ManifestDirNotSet | NoWorkspaceRoot | ScriptMissing(script: Path)

  /** A panic of `link_helper`: the lines printed before it, and its cause. */
  datatype LinkPanic = LinkPanic(lines: seq<string>, error: LinkError)

  datatype LinkConfig = LinkConfig(
    platform: Platform,
    targetPrefix: string,
    scriptName: string,
    script: Path,
    lines: seq<string>)

  /** `target.split('-').next()`: the `None` fallback to "riscv32i" cannot be taken. */
  function TargetPrefix(target: string): (r: string)
    ensures '-' !in r
    ensures '-' in target ==> |r| < |target| && target == r + "-" + target[|r| + 1..]
    ensures '-' !in target ==> r == target
  {
    FirstField(target, '-')
  }

  /** `format!("{}_link.x", target_prefix)`. */
  function ScriptName(prefix: string): string {
    prefix + "_link.x"
  }

  /**
   * `Path::join(c)` for a name c that is one plain component (no '/', not
   * "." and not empty), as the fixed directory names and platform names are.
   */
  function JoinComponent(p: Path, c: string): Path {
    if p == Path(false, []) then Path(false, [c]) else Path(p.absolute, p.components + [c])
  }

  /** `<root>/platform/runtimes/<platform>/linker_scripts/<name>`. */
  function ScriptPath(root: Path, p: Platform, name: string): Path {
    JoinPath(JoinComponent(JoinComponent(JoinComponent(JoinComponent(root, "platform"), "runtimes"), Fmt(p)), "linker_scripts"), name)
  }

  /** The grandparent of the manifest directory. */
  function WorkspaceRoot(manifestDir: string): Option<Path> {
    match Parent(ParsePath(manifestDir))
    case None => None
    case Some(p) => Parent(p)
  }

  /** The lines `link_helper` prints on success, after `get_platform`'s warning. */
  function Directives(script: Path, name: string, p: Platform, prefix: string): seq<string> {
    [ "cargo:rustc-link-arg=-T" + Display(script),
      "cargo:rerun-if-changed=" + Display(script),
      "cargo:rerun-if-changed=build.rs",
      "cargo:rerun-if-env-changed=ARCH",
      "cargo:rerun-if-env-changed=TARGET",
      "cargo:warning=Linker config: script=" + name + ", platform=" + Fmt(p) + ", target=" + prefix ]
  }

  /** `link_helper`, with the environment, the file system and the panics made explicit. */
  function LinkHelper(arch: Option<string>, target: Option<string>, manifestDir: Option<string>, existing: set<Path>): Result<LinkConfig, LinkPanic> {
    var (platform, note) := GetPlatform(arch);
    if target.None? then Err(LinkPanic([NoteLine(note)], TargetNotSet))
    else
      var prefix := TargetPrefix(target.value);
      if manifestDir.None? then Err(LinkPanic([NoteLine(note)], ManifestDirNotSet))
      else
        match WorkspaceRoot(manifestDir.value)
        case None => Err(LinkPanic([NoteLine(note)], NoWorkspaceRoot))
        case Some(root) =>
          var name := ScriptName(prefix);
          var script := ScriptPath(root, platform, name);
          if script !in existing then Err(LinkPanic([NoteLine(note)], ScriptMissing(script)))
          else Ok(LinkConfig(platform, prefix, name, script, [NoteLine(note)] + Directives(script, name, platform, prefix)))
  }

  /** A relative name without '/' or '.' pieces adds exactly itself as one component. */
  lemma JoinSimpleName(p: Path, s: string)
    requires p.absolute && s != "" && s != "." && '/' !in s
    ensures JoinPath(p, s) == Path(true, p.components + [s])
  {
    assert IndexOf(s, '/') == None;
    assert Split(s, '/') == [s];
    assert Normalise([s]) == [s] + Normalise([]);
  }

  /** Under an absolute root, the script path adds the four fixed directories and the name. */
  lemma ScriptPathLayout(root: Path, p: Platform, name: string)
    requires root.absolute && name != "" && name != "." && '/' !in name
    ensures ScriptPath(root, p, name) == Path(true, root.components + ["platform"] + ["runtimes"] + [Fmt(p)] + ["linker_scripts"] + [name])
  {
    var dirs := JoinComponent(JoinComponent(JoinComponent(JoinComponent(root, "platform"), "runtimes"), Fmt(p)), "linker_scripts");
    assert dirs == Path(true, root.components + ["platform"] + ["runtimes"] + [Fmt(p)] + ["linker_scripts"]);
    JoinSimpleName(dirs, name);
  }

  /** The workspace root drops the last two components of the manifest directory. */
  lemma WorkspaceRootLayout(manifestDir: string)
    ensures var dir := ParsePath(manifestDir);
      WorkspaceRoot(manifestDir) ==
        if |dir.components| < 2 then None
        else Some(Path(dir.absolute, dir.components[..|dir.components| - 2]))
  {
    var comps := ParsePath(manifestDir).components;
    if |comps| >= 2 {
      assert comps[..|comps| - 1][..|comps| - 2] == comps[..|comps| - 2];
    }
  }

  /** A target without '/' gives a script name that is one plain path component. */
  lemma ScriptNameIsComponent(target: string)
    requires '/' !in target
    ensures var name := ScriptName(TargetPrefix(target));
      name != "" && name != "." && '/' !in name
  {
    var prefix := TargetPrefix(target);
    var name := ScriptName(prefix);
    assert '/' !in prefix by {
      if '-' in target {
        assert forall k :: 0 <= k < |prefix| ==> prefix[k] == target[k];
      }
    }
    assert name == prefix + "_link.x";
    assert |name| >= 7;
  }

  /**
   * For an absolute manifest directory with at least two components and a
   * target free of '/', the script is prefix + "_link.x" at the workspace
   * root (the manifest directory less its last two components) under
   * platform/runtimes/<fmt(platform)>/linker_scripts; `link_helper`
   * succeeds exactly when that file exists, printing the platform warning
   * and then its directives; otherwise it panics after the warning.
   */
  lemma LinkHelperLayout(arch: Option<string>, target: string, manifestDir: string, existing: set<Path>)
    requires |manifestDir| > 0 && manifestDir[0] == '/'
    requires |ParsePath(manifestDir).components| >= 2
    requires '/' !in target
    ensures var comps := ParsePath(manifestDir).components;
      var (platform, note) := GetPlatform(arch);
      var prefix := TargetPrefix(target);
      var name := prefix + "_link.x";
      var script := Path(true, comps[..|comps| - 2] + ["platform"] + ["runtimes"] + [Fmt(platform)] + ["linker_scripts"] + [name]);
      LinkHelper(arch, Some(target), Some(manifestDir), existing) ==
        if script in existing
        then Ok(LinkConfig(platform, prefix, name, script, [NoteLine(note)] + Directives(script, name, platform, prefix)))
        else Err(LinkPanic([NoteLine(note)], ScriptMissing(script)))
  {
    var comps := ParsePath(manifestDir).components;
    WorkspaceRootLayout(manifestDir);
    ScriptNameIsComponent(target);
    ScriptPathLayout(Path(true, comps[..|comps| - 2]), GetPlatform(arch).0, ScriptName(TargetPrefix(target)));
  }

  /**
   * Without TARGET or CARGO_MANIFEST_DIR, or with a manifest directory of
   * fewer than two components, `link_helper` panics, after printing the
   * platform warning.
   */
  lemma LinkHelperFailures(arch: Option<string>, target: Option<string>, manifestDir: Option<string>, existing: set<Path>)
    ensures var printed := [NoteLine(GetPlatform(arch).1)];
      && (target.None? ==> LinkHelper(arch, target, manifestDir, existing) == Err(LinkPanic(printed, TargetNotSet)))
      && (target.Some? && manifestDir.None? ==>
            LinkHelper(arch, target, manifestDir, existing) == Err(LinkPanic(printed, ManifestDirNotSet)))
      && (target.Some? && manifestDir.Some? && |ParsePath(manifestDir.value).components| < 2 ==>
            LinkHelper(arch, target, manifestDir, existing) == Err(LinkPanic(printed, NoWorkspaceRoot)))
  {
  }

  /** The target prefix of a full triple is its architecture. */
  lemma TargetPrefixExample()
    ensures TargetPrefix("riscv32i-unknown-none-elf") == "riscv32i"
  {
    FirstDashUnique("riscv32i-unknown-none-elf", 8);
    assert "riscv32i-unknown-none-elf"[..8] == "riscv32i";
  }
}
