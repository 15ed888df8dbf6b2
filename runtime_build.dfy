/**
 * The runtime crate's build script: of the supported platforms, those whose
 * `CARGO_FEATURE_<NAME>` variable is set are enabled, and the build goes on
 * only with exactly one of them, or with none on the host target. The set
 * environment variables and `TARGET` are inputs; the lines printed and the
 * exit status are the outcome.
 */
module RuntimeBuild {
  import opened Wrappers
  import opened Text

  const Platforms: seq<string> := ["nemu", "qemu", "spike"]

  const HostTarget: string := "x86_64-unknown-linux-gnu"

  /** `format!("CARGO_FEATURE_{}", platform.to_uppercase())`. */
  function FeatureVar(platform: string): string {
    "CARGO_FEATURE_" + Upper(platform)
  }

  /** The names whose feature variable is among the set variables, in their original order. */
  function EnabledAmong(names: seq<string>, vars: set<string>): (r: seq<string>)
    ensures |r| <= |names|
  {
    if names == [] then []
    else (if FeatureVar(names[0]) in vars then [names[0]] else []) + EnabledAmong(names[1..], vars)
  }

  /** A name is enabled exactly when it is listed and its feature variable is set. */
  lemma {:induction false} EnabledMembers(names: seq<string>, vars: set<string>)
    ensures forall x :: x in EnabledAmong(names, vars) <==> x in names && FeatureVar(x) in vars
    decreases |names|
  {
    if names != [] {
      EnabledMembers(names[1..], vars);
      assert names == [names[0]] + names[1..];
    }
  }

  /** sub is obtained from s by deleting elements. */
  predicate IsSubsequence(sub: seq<string>, s: seq<string>)
    decreases |s|
  {
    if sub == [] then true
    else if s == [] then false
    else if sub[0] == s[0] then IsSubsequence(sub[1..], s[1..])
    else IsSubsequence(sub, s[1..])
  }

  /** A subsequence of the tail of s is a subsequence of s. */
  lemma {:induction false} SubsequenceOfTail(sub: seq<string>, s: seq<string>)
    requires s != [] && IsSubsequence(sub, s[1..])
    ensures IsSubsequence(sub, s)
    decreases |s|, 0
  {
    if sub != [] && sub[0] == s[0] {
      SubsequenceDropHead(sub, s[1..]);
    }
  }

  /** Without its first element, a subsequence stays a subsequence. */
  lemma {:induction false} SubsequenceDropHead(sub: seq<string>, t: seq<string>)
    requires sub != [] && IsSubsequence(sub, t)
    ensures IsSubsequence(sub[1..], t)
    decreases |t|, 1
  {
    if sub[0] == t[0] {
      SubsequenceOfTail(sub[1..], t);
    } else {
      SubsequenceDropHead(sub, t[1..]);
      SubsequenceOfTail(sub[1..], t);
    }
  }

  /** The enabled list keeps the order of the platform list. */
  lemma {:induction false} EnabledInOrder(names: seq<string>, vars: set<string>)
    ensures IsSubsequence(EnabledAmong(names, vars), names)
    decreases |names|
  {
    if names != [] {
      EnabledInOrder(names[1..], vars);
      var rest := EnabledAmong(names[1..], vars);
      if FeatureVar(names[0]) in vars {
        assert ([names[0]] + rest)[1..] == rest;
      } else {
        assert [] + rest == rest;
        SubsequenceOfTail(rest, names);
      }
    }
  }

  /** `enabled_platforms`. */
  function Enabled(vars: set<string>): seq<string> {
    EnabledAmong(Platforms, vars)
  }

  lemma UpperNames()
    ensures Upper("nemu") == "NEMU" && Upper("qemu") == "QEMU" && Upper("spike") == "SPIKE"
  {
  }

  /** Spelled out for the three platforms: each is enabled by its own upper-case variable. */
  lemma EnabledPlatforms(vars: set<string>)
    ensures Enabled(vars) ==
      (if "CARGO_FEATURE_NEMU" in vars then ["nemu"] else []) +
      (if "CARGO_FEATURE_QEMU" in vars then ["qemu"] else []) +
      (if "CARGO_FEATURE_SPIKE" in vars then ["spike"] else [])
  {
    UpperNames();
    assert FeatureVar("nemu") == "CARGO_FEATURE_NEMU";
    assert FeatureVar("qemu") == "CARGO_FEATURE_QEMU";
    assert FeatureVar("spike") == "CARGO_FEATURE_SPIKE";
    var a := if "CARGO_FEATURE_NEMU" in vars then ["nemu"] else [];
    var b := if "CARGO_FEATURE_QEMU" in vars then ["qemu"] else [];
    var c := if "CARGO_FEATURE_SPIKE" in vars then ["spike"] else [];
    assert ["spike"][1..] == [];
    assert EnabledAmong(["spike"], vars) == c + EnabledAmong([], vars);
    assert ["qemu", "spike"][1..] == ["spike"];
    assert EnabledAmong(["qemu", "spike"], vars) == b + EnabledAmong(["spike"], vars);
    assert Platforms[1..] == ["qemu", "spike"];
    assert Enabled(vars) == a + EnabledAmong(["qemu", "spike"], vars);
    assert a + (b + (c + [])) == a + b + c;
  }

  /** How the script ends. */
  datatype Outcome =
    | Continue(lines: seq<string>)            // build goes on, after printing these cargo lines
    | Exit(status: int, errors: seq<string>)  // `process::exit(status)` after these stderr lines
    | TargetNotSet                            // the `expect` on `TARGET` panics

  /** The lines printed after the check, whenever the build goes on. */
  const RerunLines: seq<string> := [
    "cargo:rerun-if-changed=build.rs",
    "cargo:rerun-if-env-changed=CARGO_FEATURE_NEMU",
    "cargo:rerun-if-env-changed=CARGO_FEATURE_QEMU"]

  function NoPlatformErrors(): seq<string> {
    [ "ERROR: No platform feature enabled!",
      "Available platforms: " + Join(Platforms, ", "),
      "Please enable exactly one platform feature.",
      "",
      "Example: cargo build --features runtime/nemu" ]
  }

  function ManyPlatformErrors(enabled: seq<string>): seq<string> {
    [ "ERROR: Multiple platform features enabled!",
      "Enabled platforms: " + Join(enabled, ", "),
      "Available platforms: " + Join(Platforms, ", "),
      "Please enable exactly ONE platform feature.",
      "",
      "Example: cargo build --no-default-features --features runtime/nemu" ]
  }

  function UsingLine(name: string): string {
    "cargo:warning=Using platform: " + name
  }

  /** `main`: the decision on the number of enabled platforms. */
  function Main(vars: set<string>, target: Option<string>): Outcome {
    var enabled := Enabled(vars);
    if |enabled| == 0 then
      if target.None? then TargetNotSet
      else if target.value != HostTarget then Exit(1, NoPlatformErrors())
      else Continue(RerunLines)
    else if |enabled| == 1 then
      Continue([UsingLine(enabled[0])] + RerunLines)
    else
      Exit(1, ManyPlatformErrors(enabled))
  }

  /**
   * The build goes on exactly when one platform is enabled, or none is and
   * the target is the host; every other case with TARGET set exits with
   * status 1.
   */
  lemma MainDecision(vars: set<string>, target: Option<string>)
    ensures Main(vars, target).Continue? <==>
      |Enabled(vars)| == 1 || (|Enabled(vars)| == 0 && target == Some(HostTarget))
    ensures Main(vars, target).TargetNotSet? <==> |Enabled(vars)| == 0 && target.None?
    ensures Main(vars, target).Exit? ==> Main(vars, target).status == 1
    ensures |Enabled(vars)| >= 2 ==> Main(vars, target).Exit?
  {
  }

  /**
   * No platform enabled on a target other than the host: the script exits
   * with status 1, and its second error line lists the supported platforms.
   */
  lemma NoPlatformRejected(vars: set<string>, target: Option<string>)
    requires |Enabled(vars)| == 0 && target.Some? && target.value != HostTarget
    ensures Main(vars, target) == Exit(1, NoPlatformErrors())
    ensures NoPlatformErrors()[1] == "Available platforms: nemu, qemu, spike"
  {
    assert Join(["spike"], ", ") == "spike";
    assert Join(["qemu", "spike"], ", ") == "qemu, spike";
  }

  /** With one platform enabled, its name is reported first. */
  lemma SinglePlatformReported(vars: set<string>, target: Option<string>)
    requires |Enabled(vars)| == 1
    ensures Enabled(vars)[0] in Platforms && FeatureVar(Enabled(vars)[0]) in vars
    ensures Main(vars, target).Continue?
    ensures Main(vars, target).lines[0] == UsingLine(Enabled(vars)[0])
  {
    EnabledMembers(Platforms, vars);
    assert Enabled(vars)[0] in Enabled(vars);
  }

  /** Only the QEMU feature set: the build goes on with qemu, whatever the target. */
  lemma QemuOnly(target: Option<string>)
    ensures Main({"CARGO_FEATURE_QEMU"}, target) ==
      Continue([UsingLine("qemu")] + RerunLines)
  {
    EnabledPlatforms({"CARGO_FEATURE_QEMU"});
    assert "CARGO_FEATURE_NEMU"[14] != "CARGO_FEATURE_QEMU"[14];
    assert |"CARGO_FEATURE_SPIKE"| != |"CARGO_FEATURE_QEMU"|;
    assert Enabled({"CARGO_FEATURE_QEMU"}) == ["qemu"];
  }

  /** NEMU and SPIKE both set: the script exits with status 1, listing both. */
  lemma TwoPlatformsRejected(target: Option<string>)
    ensures Main({"CARGO_FEATURE_NEMU", "CARGO_FEATURE_SPIKE"}, target) ==
      Exit(1, ManyPlatformErrors(["nemu", "spike"]))
  {
    EnabledPlatforms({"CARGO_FEATURE_NEMU", "CARGO_FEATURE_SPIKE"});
    assert "CARGO_FEATURE_QEMU"[14] != "CARGO_FEATURE_NEMU"[14];
    assert |"CARGO_FEATURE_SPIKE"| != |"CARGO_FEATURE_QEMU"|;
    assert Enabled({"CARGO_FEATURE_NEMU", "CARGO_FEATURE_SPIKE"}) == ["nemu", "spike"];
  }
}
