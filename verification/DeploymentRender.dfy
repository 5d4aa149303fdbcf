/** The required Deployment: the asset with the image put in and the flags appended. */
module DeploymentRender {
  import opened Wrappers

  /** `rest` is every other field of a container. */
  datatype Container = Container(image: string, args: seq<string>, rest: string)

  /** Normal, Debug, Trace or TraceAll, but any string may be found there. */
  type LogLevel = string

  const PLACEHOLDER := "${IMAGE}"
  const HTTP_FLAG := "--serve-artifacts-in-http"

  function Digit(level: LogLevel): char {
    if level == "Debug" then '4'
    else if level == "Trace" then '6'
    else if level == "TraceAll" then '8'
    else '2'
  }

  function VerbosityFlag(level: LogLevel): string { "-v=" + [Digit(level)] }

  function Flags(level: LogLevel, insecureHTTP: bool): seq<string> {
    [VerbosityFlag(level)] + if insecureHTTP then [HTTP_FLAG] else []
  }

  /** Each image is looked up once: a replacement is not itself replaced. */
  function WithImage(c: Container, images: map<string, string>): Container {
    if c.image in images then c.(image := images[c.image]) else c
  }

  function Images(targetImage: string): map<string, string> {
    if targetImage != "" then map[PLACEHOLDER := targetImage] else map[]
  }

  /** The rendered containers, as a value. */
  function Rendered(asset: seq<Container>, targetImage: string, level: LogLevel, insecureHTTP: bool)
    : (rendered: seq<Container>)
    ensures IsRendered(rendered, asset, targetImage, level, insecureHTTP)
  {
    seq(|asset|, i requires 0 <= i < |asset| =>
      var c := WithImage(asset[i], Images(targetImage));
      if i == 0 then c.(args := c.args + Flags(level, insecureHTTP)) else c)
  }

  /** Specification of the rendering, container by container. */
  ghost predicate IsRendered(rendered: seq<Container>, asset: seq<Container>,
                             targetImage: string, level: LogLevel, insecureHTTP: bool) {
    && |rendered| == |asset|
    && forall i :: 0 <= i < |asset| ==>
         var c := WithImage(asset[i], Images(targetImage));
         rendered[i] == if i == 0 then c.(args := c.args + Flags(level, insecureHTTP)) else c
  }

  lemma OneRendering(one: seq<Container>, two: seq<Container>, asset: seq<Container>,
                     targetImage: string, level: LogLevel, insecureHTTP: bool)
    requires IsRendered(one, asset, targetImage, level, insecureHTTP)
    requires IsRendered(two, asset, targetImage, level, insecureHTTP)
    ensures one == two
  {}

  /** Any map of images, visited in any order, which the break makes irrelevant. */
  method ReplaceImages(containers: array<Container>, images: map<string, string>)
    modifies containers
    ensures forall i :: 0 <= i < containers.Length ==> containers[i] == WithImage(old(containers[i]), images)
  {
    for i := 0 to containers.Length
      invariant forall j :: 0 <= j < i ==> containers[j] == WithImage(old(containers[j]), images)
      invariant forall j :: i <= j < containers.Length ==> containers[j] == old(containers[j])
    {
      var left := images.Keys;
      while left != {}
        invariant left <= images.Keys
        invariant containers[i] == old(containers[i])
        invariant containers[i].image in images ==> containers[i].image in left
        invariant forall j :: 0 <= j < i ==> containers[j] == WithImage(old(containers[j]), images)
        invariant forall j :: i <= j < containers.Length ==> containers[j] == old(containers[j])
        decreases |left|
      {
        var pat :| pat in left;
        left := left - {pat};
        if containers[i].image == pat {
          containers[i] := containers[i].(image := images[pat]);
          break;
        }
      }
    }
  }

  class DeploymentManager {
    /** The embedded file, decoded anew by every call. */
    const asset: seq<Container>
    const targetImage: string
    const insecureHTTP: bool

    constructor (asset: seq<Container>, targetImage: string, insecureHTTP: bool)
      ensures this.asset == asset && this.targetImage == targetImage && this.insecureHTTP == insecureHTTP
    {
      this.asset := asset;
      this.targetImage := targetImage;
      this.insecureHTTP := insecureHTTP;
    }

    /** Starts from the asset every time, so over any number of calls nothing piles up. */
    method RequiredContainers(level: LogLevel) returns (required: seq<Container>)
      requires asset != []
      ensures IsRendered(required, asset, targetImage, level, insecureHTTP)
      ensures required == Rendered(asset, targetImage, level, insecureHTTP)
    {
      var containers := new Container[|asset|](i requires 0 <= i < |asset| => asset[i]);
      if targetImage != "" {
        ReplaceImages(containers, map[PLACEHOLDER := targetImage]);
      }
      containers[0] := containers[0].(args := containers[0].args + [VerbosityFlag(level)]);
      if insecureHTTP {
        containers[0] := containers[0].(args := containers[0].args + [HTTP_FLAG]);
      }
      required := containers[..];
      OneRendering(required, Rendered(asset, targetImage, level, insecureHTTP),
                   asset, targetImage, level, insecureHTTP);
    }
  }

  // ---- what the flags mean ---------------------------------------------------------

  predicate IsVerbosity(arg: string) { |arg| >= 3 && arg[..3] == "-v=" }

  /** The arguments of a kind, in order. */
  function Select(args: seq<string>, keep: string -> bool): seq<string> {
    if args == [] then []
    else (if keep(args[0]) then [args[0]] else []) + Select(args[1..], keep)
  }

  lemma {:induction false} SelectAppends(args: seq<string>, more: seq<string>, keep: string -> bool)
    ensures Select(args + more, keep) == Select(args, keep) + Select(more, keep)
  {
    if args == [] {
      assert args + more == more;
    } else {
      var all := args + more;
      assert all != [] && all[0] == args[0] && all[1..] == args[1..] + more;
      SelectAppends(args[1..], more, keep);
      var kept := if keep(args[0]) then [args[0]] else [];
      assert Select(all, keep) == kept + Select(args[1..] + more, keep);
      assert Select(args, keep) == kept + Select(args[1..], keep);
    }
  }

  /** Exactly one verbosity flag is added, behind any the asset may have, so that a
      program in which the last one counts gets the level of the custom resource; and
      the HTTP flag is added exactly when it is asked for. */
  lemma FlagsTakeEffect(rendered: seq<Container>, asset: seq<Container>,
                        targetImage: string, level: LogLevel, insecureHTTP: bool)
    requires asset != [] && IsRendered(rendered, asset, targetImage, level, insecureHTTP)
    ensures var verbosity := Select(rendered[0].args, IsVerbosity);
            && verbosity == Select(asset[0].args, IsVerbosity) + [VerbosityFlag(level)]
            && verbosity[|verbosity| - 1] == VerbosityFlag(level)
    ensures var isHttp := (arg: string) => arg == HTTP_FLAG;
            Select(rendered[0].args, isHttp) == Select(asset[0].args, isHttp) + if insecureHTTP then [HTTP_FLAG] else []
  {
    var flags := Flags(level, insecureHTTP);
    SelectAppends(asset[0].args, flags, IsVerbosity);
    assert HTTP_FLAG[..3] == "--s";
    assert IsVerbosity(VerbosityFlag(level)) && !IsVerbosity(HTTP_FLAG);
    assert Select(flags[1..], IsVerbosity) == [];
    assert Select(flags, IsVerbosity) == [VerbosityFlag(level)];
    var isHttp := (arg: string) => arg == HTTP_FLAG;
    SelectAppends(asset[0].args, flags, isHttp);
    assert |HTTP_FLAG| != |VerbosityFlag(level)|;
    assert Select(flags[1..], isHttp) == if insecureHTTP then [HTTP_FLAG] else [];
  }

  predicate IsVerbose(level: LogLevel) { level in {"Debug", "Trace", "TraceAll"} }

  /** A change of log level changes the required Deployment exactly when it changes
      the verbosity: between Normal and an unset or unknown level nothing is rolled out. */
  lemma LevelMattersIff(one: seq<Container>, two: seq<Container>, asset: seq<Container>,
                        targetImage: string, first: LogLevel, second: LogLevel, insecureHTTP: bool)
    requires asset != []
    requires IsRendered(one, asset, targetImage, first, insecureHTTP)
    requires IsRendered(two, asset, targetImage, second, insecureHTTP)
    ensures one != two <==> first != second && (IsVerbose(first) || IsVerbose(second))
  {
    FlagsTakeEffect(one, asset, targetImage, first, insecureHTTP);
    FlagsTakeEffect(two, asset, targetImage, second, insecureHTTP);
    assert VerbosityFlag(first)[3] == Digit(first) && VerbosityFlag(second)[3] == Digit(second);
    assert Digit(first) == Digit(second) <==> first == second || (!IsVerbose(first) && !IsVerbose(second));
    if Digit(first) == Digit(second) {
      assert one == two;
    }
  }

  /** No placeholder is left exactly when there was none or an image, other than the
      placeholder itself, was configured; containers without it keep their image. */
  lemma PlaceholdersGoneIff(rendered: seq<Container>, asset: seq<Container>,
                            targetImage: string, level: LogLevel, insecureHTTP: bool)
    requires IsRendered(rendered, asset, targetImage, level, insecureHTTP)
    ensures (forall i :: 0 <= i < |rendered| ==> rendered[i].image != PLACEHOLDER) <==>
            (targetImage != "" && targetImage != PLACEHOLDER)
            || (forall i :: 0 <= i < |asset| ==> asset[i].image != PLACEHOLDER)
    ensures forall i :: 0 <= i < |asset| && asset[i].image != PLACEHOLDER ==> rendered[i].image == asset[i].image
  {}

  // ---- what a reader of the Deployment sees ----------------------------------------------

  /** The decimal number that a string denotes. */
  function Decimal(digits: string): Option<nat> {
    if digits == "" then None
    else
      var n := |digits| - 1;
      var last := digits[n] as int - '0' as int;
      if !(0 <= last <= 9) then None
      else if n == 0 then Some(last)
      else
        var before := Decimal(digits[..n]);
        if before.None? then None else Some(10 * before.value + last)
  }

  /** The verbosity a program goes by: that of its last "-v=" argument. */
  function Verbosity(args: seq<string>): Option<nat> {
    if args == [] then None
    else
      var last := args[|args| - 1];
      if |last| >= 3 && last[0] == '-' && last[1] == 'v' && last[2] == '=' then Decimal(last[3..])
      else Verbosity(args[..|args| - 1])
  }

  lemma {:induction false} VerbosityBehind(args: seq<string>, flag: string, more: seq<string>)
    requires |flag| == 4 && flag[..3] == "-v=" && '0' <= flag[3] <= '9'
    requires more == [] || more == ["--serve-artifacts-in-http"]
    ensures Verbosity(args + [flag] + more) == Some(flag[3] as int - '0' as int)
  {
    assert flag[3..] == [flag[3]];
    assert (args + [flag])[..|args|] == args;
    assert Verbosity(args + [flag]) == Some(flag[3] as int - '0' as int);
    if more != [] {
      var all := args + [flag] + more;
      assert all[..|all| - 1] == args + [flag];
      assert all[|all| - 1] == "--serve-artifacts-in-http";
      assert "--serve-artifacts-in-http"[1] != 'v';
    } else {
      assert args + [flag] + more == args + [flag];
    }
  }

  /** Along the four levels the verbosity of container 0 rises by 2, from 2 on; for any
      other level it is 2. */
  lemma VerbosityOfLevel(rendered: seq<Container>, asset: seq<Container>,
                         targetImage: string, level: LogLevel, insecureHTTP: bool)
    requires asset != [] && IsRendered(rendered, asset, targetImage, level, insecureHTTP)
    ensures forall i :: 0 <= i < 4 && level == ["Normal", "Debug", "Trace", "TraceAll"][i] ==>
              Verbosity(rendered[0].args) == Some(2 + 2 * i)
    ensures level !in ["Normal", "Debug", "Trace", "TraceAll"] ==> Verbosity(rendered[0].args) == Some(2)
  {
    assert |"Normal"| == 6 && |"Debug"| == |"Trace"| == 5 && |"TraceAll"| == 8;
    assert "Debug"[0] != "Trace"[0];
    var args := WithImage(asset[0], Images(targetImage)).args;
    var more := if insecureHTTP then ["--serve-artifacts-in-http"] else [];
    assert rendered[0].args == args + [VerbosityFlag(level)] + more;
    VerbosityBehind(args, VerbosityFlag(level), more);
  }

  /** Container by container: the image is the configured one exactly where the asset has
      "${IMAGE}" and an image is configured; only container 0 gets arguments, behind its
      own, one for the verbosity and one to serve over HTTP if that is asked for; nothing
      else changes. */
  lemma RenderedFieldByField(rendered: seq<Container>, asset: seq<Container>,
                             targetImage: string, level: LogLevel, insecureHTTP: bool, i: nat)
    requires IsRendered(rendered, asset, targetImage, level, insecureHTTP) && i < |asset|
    ensures |rendered| == |asset|
    ensures rendered[i].image
         == if targetImage != "" && asset[i].image == "${IMAGE}" then targetImage else asset[i].image
    ensures rendered[i].rest == asset[i].rest && (i > 0 ==> rendered[i].args == asset[i].args)
    ensures i == 0 ==>
              && asset[0].args <= rendered[0].args
              && |rendered[0].args| == |asset[0].args| + (if insecureHTTP then 2 else 1)
              && (insecureHTTP ==> rendered[0].args[|rendered[0].args| - 1] == "--serve-artifacts-in-http")
  {}
}
