/** The older host runtime: the image size check, the compose command lines
    (always with the project name), and `up`, which names volumes by a hash
    of their path alone, leaves their creation to compose, removes the
    container's other listed volumes and writes a single `ENCLAVE` line
    ahead of the container's environment. */
module LegacyDocker {
  import opened Common
  import Consts
  import LegacyStore
  import RuntimeSpec

  // ---------------------------------------------------------------------
  // Image size check

  const MaxImageBytes: int := 300000000

  /** The sum of the layer sizes, summed from the first layer on. */
  function LayersTotal(sizes: seq<int>): int
  {
    if sizes == [] then 0 else LayersTotal(sizes[..|sizes| - 1]) + sizes[|sizes| - 1]
  }

  /** `checkImage` after the inspect command exited with `code` and printed
      `layers` (None when the output has no readable layer list). */
  function CheckImageSpec(code: int, layers: Option<seq<int>>): (o: Outcome)
    ensures o == Done <==> code == 0 && layers.Some? && LayersTotal(layers.value) <= MaxImageBytes
    ensures code != 0 ==> o == Fail("Failed to fetch docker image")
    ensures code == 0 && o.Fail? ==> o == Fail("Failed to parse image info")
  {
    if code != 0 then Fail("Failed to fetch docker image")
    else if layers.None? then Fail("Failed to parse image info")
    else if LayersTotal(layers.value) > MaxImageBytes then Fail("Failed to parse image info")
    else Done
  }

  /** The summing loop of `checkImage`; the "Image too big" error raised
      inside the `try` is replaced by the parse error of its `catch`. */
  method CheckImage(code: int, layers: Option<seq<int>>) returns (o: Outcome)
    ensures o == CheckImageSpec(code, layers)
  {
    if code != 0 {
      return Fail("Failed to fetch docker image");
    }
    if layers.None? {
      return Fail("Failed to parse image info");
    }
    var sizes := layers.value;
    var size := 0;
    var i := 0;
    while i < |sizes|
      invariant 0 <= i <= |sizes|
      invariant size == LayersTotal(sizes[..i])
    {
      assert sizes[..i + 1][..i] == sizes[..i];
      size := size + sizes[i];
      i := i + 1;
    }
    assert sizes[..i] == sizes;
    var tooBig: Outcome := if size > MaxImageBytes then Fail("Image too big") else Done;
    o := if tooBig.Fail? then Fail("Failed to parse image info") else Done;
  }

  /** An oversized image is reported exactly like an unreadable one. */
  lemma OversizeLooksUnparsable(sizes: seq<int>)
    requires LayersTotal(sizes) > MaxImageBytes
    ensures CheckImageSpec(0, Some(sizes)) == CheckImageSpec(0, None)
  {
  }

  // ---------------------------------------------------------------------
  // Compose

  /** The `docker` arguments of `compose`: the project name always, no
      follow mode for logs. */
  function ComposeArgs(path: string, pubkey: string, cmd: RuntimeSpec.Cmd, dry: bool): seq<string>
  {
    var args := ["compose", "-f", path + "/compose.yaml", "-p", pubkey] + [RuntimeSpec.CmdName(cmd)];
    var args := if dry then args + ["--dry-run"] else args;
    var args := if cmd == RuntimeSpec.Up then args + ["-d"] else args;
    if cmd == RuntimeSpec.Logs then args + ["-n", "500"] else args
  }

  /** The older command lines are the newer ones without follow mode. */
  lemma ComposeArgsAgree(path: string, pubkey: string, cmd: RuntimeSpec.Cmd, dry: bool)
    ensures ComposeArgs(path, pubkey, cmd, dry) == RuntimeSpec.ComposeArgs(path, pubkey, cmd, dry, false)
  {
  }

  /** Every compose command, logs included, fails on a non-zero exit. */
  function ComposeCheck(code: int): (o: Outcome)
    ensures forall cmd :: o == RuntimeSpec.ComposeCheck(cmd, false, code)
  {
    if code != 0 then Fail("Failed to run docker compose") else Done
  }

  // ---------------------------------------------------------------------
  // Volumes

  function TrimAll(lines: seq<string>): (r: seq<string>)
    ensures |r| == |lines| && forall k :: 0 <= k < |r| ==> r[k] == Trim(lines[k])
  {
    if lines == [] then [] else TrimAll(lines[..|lines| - 1]) + [Trim(lines[|lines| - 1])]
  }

  /** The volume paths printed by the image inspect: the trimmed output
      split into lines, each trimmed, empty ones dropped. */
  function VolumePaths(out: string): (r: seq<string>)
    ensures forall p :: p in r <==> p != "" && p in TrimAll(Split(Trim(out), '\n'))
  {
    Filter(TrimAll(Split(Trim(out), '\n')), (p: string) => p != "")
  }

  /** The names in use after the volume loop over `paths`: each path's hash
      tag, mapped to the last path with that tag. */
  function UsedOf(paths: seq<string>, hash: string -> seq<byte>): map<string, string>
  {
    if paths == [] then map[]
    else
      var used := UsedOf(paths[..|paths| - 1], hash);
      var path := paths[|paths| - 1];
      if RuntimeSpec.Blank(path) then used else used[RuntimeSpec.HashTag(path, hash) := path]
  }

  /** The mount lines after the loop over `paths`: (volume name, path). */
  function Mounts(paths: seq<string>, hash: string -> seq<byte>): (r: seq<(string, string)>)
    ensures |r| <= |paths|
  {
    if paths == [] then []
    else
      var path := paths[|paths| - 1];
      Mounts(paths[..|paths| - 1], hash)
        + (if RuntimeSpec.Blank(path) then [] else [(RuntimeSpec.HashTag(path, hash), path)])
  }

  /** Every name in use is a tag of at most 14 characters, for one of the paths. */
  lemma {:induction false} UsedOfNames(paths: seq<string>, hash: string -> seq<byte>)
    ensures var used := UsedOf(paths, hash);
      forall k :: k in used ==> |k| <= 14 && used[k] in paths && k == RuntimeSpec.HashTag(used[k], hash)
  {
    if paths != [] {
      var init := paths[..|paths| - 1];
      var last := paths[|paths| - 1];
      UsedOfNames(init, hash);
      var prev := UsedOf(init, hash);
      var used := UsedOf(paths, hash);
      assert forall x :: x in init ==> x in paths;
      forall k | k in used
        ensures |k| <= 14 && used[k] in paths && k == RuntimeSpec.HashTag(used[k], hash)
      {
        if !RuntimeSpec.Blank(last) && k == RuntimeSpec.HashTag(last, hash) {
          assert used[k] == last;
        } else {
          assert k in prev && used[k] == prev[k];
        }
      }
    }
  }

  /** Every non-blank path is mounted under its tag, and its tag is in use. */
  lemma {:induction false} MountsCoverPaths(paths: seq<string>, hash: string -> seq<byte>)
    ensures forall p :: p in paths && !RuntimeSpec.Blank(p) ==>
      (RuntimeSpec.HashTag(p, hash), p) in Mounts(paths, hash) && RuntimeSpec.HashTag(p, hash) in UsedOf(paths, hash)
    ensures forall m :: m in Mounts(paths, hash) ==> m.1 in paths && m.0 == RuntimeSpec.HashTag(m.1, hash)
  {
    if paths != [] {
      var init := paths[..|paths| - 1];
      var last := paths[|paths| - 1];
      MountsCoverPaths(init, hash);
      assert paths == init + [last];
      var used := UsedOf(paths, hash);
      var prev := UsedOf(init, hash);
      assert prev.Keys <= used.Keys;
      forall p | p in paths && !RuntimeSpec.Blank(p)
        ensures (RuntimeSpec.HashTag(p, hash), p) in Mounts(paths, hash) && RuntimeSpec.HashTag(p, hash) in used
      {
        if p in init {
          assert RuntimeSpec.HashTag(p, hash) in prev;
        }
      }
    }
  }

  /** The volume loop of `up`: the in-use map and the mount lines. */
  method PlanVolumes(paths: seq<string>, hash: string -> seq<byte>) returns (used: map<string, string>, mounts: seq<(string, string)>)
    ensures used == UsedOf(paths, hash) && mounts == Mounts(paths, hash)
  {
    used := map[];
    mounts := [];
    var i := 0;
    while i < |paths|
      invariant 0 <= i <= |paths|
      invariant used == UsedOf(paths[..i], hash) && mounts == Mounts(paths[..i], hash)
    {
      assert paths[..i + 1][..i] == paths[..i];
      var path := paths[i];
      if !RuntimeSpec.Blank(path) {
        var name := RuntimeSpec.HashTag(path, hash);
        used := used[name := path];
        mounts := mounts + [(name, path)];
      }
      i := i + 1;
    }
    assert paths[..i] == paths;
  }

  /** The size each volume is declared with, for a non-empty path list. */
  lemma VolumeSizesWithinShare(paths: seq<string>, hash: string -> seq<byte>, units: nat)
    requires |paths| > 0
    ensures |Mounts(paths, hash)| * RuntimeSpec.VolumeSize(units, |paths|) <= units * Consts.DiskPerUnitMb
  {
    var size := RuntimeSpec.VolumeSize(units, |paths|);
    RuntimeSpec.MulMono(|Mounts(paths, hash)|, |paths|, size);
  }

  // ---------------------------------------------------------------------
  // Bringing a container up

  /** What the host answers: exit codes, the inspect output, the volume
      listing, sha256, the public key of a secret key, and `DEBUG=true`. */
  datatype Host = Host(
    exit: seq<string> -> int,
    inspectOut: string,
    volumeList: string,
    hash: string -> seq<byte>,
    keyPubkey: seq<byte> -> string,
    debug: bool)

  const InspectFormat: string := "--format='{{range $k, $_ := .Config.Volumes}}{{println $k}}{{end}}'"

  function ComposeUp(cont: LegacyStore.DBContainer, ctx: RuntimeSpec.Context, host: Host, dry: bool): seq<string>
  {
    ["docker"] + ComposeArgs(RuntimeSpec.GetPath(ctx.dir, host.keyPubkey(cont.seckey)), cont.pubkey, RuntimeSpec.Up, dry)
  }

  function RemoveArgs(unused: seq<string>): seq<string>
  {
    ["docker", "volume", "rm"] + unused
  }

  /** The volumes `up` removes: listed, of this container, not in use. */
  function Unused(cont: LegacyStore.DBContainer, host: Host): seq<string>
  {
    RuntimeSpec.UnusedVolumes(host.volumeList, cont.pubkey, UsedOf(VolumePaths(host.inspectOut), host.hash))
  }

  /** `up`: pull, inspect, list and remove stale volumes, then validate
      quotas and env and run compose dry and for real. */
  function UpSpec(cont: LegacyStore.DBContainer, ctx: RuntimeSpec.Context, host: Host): RuntimeSpec.Trace
  {
    if cont.docker == "" then RuntimeSpec.Trace(Fail("Specify docker url"), [])
    else
      var pull := ["docker", "pull", cont.docker];
      if host.exit(pull) != 0 then RuntimeSpec.Trace(Fail("Failed to pull the docker image"), [pull])
      else
        var inspect := ["docker", "image", "inspect", cont.docker, InspectFormat];
        if host.exit(inspect) != 0 then RuntimeSpec.Trace(Fail("Failed to inspect docker image"), [pull, inspect])
        else UpRemove(cont, ctx, host, [pull, inspect])
  }

  /** The listing and removal phase of `up`, after `ran`. */
  function UpRemove(cont: LegacyStore.DBContainer, ctx: RuntimeSpec.Context, host: Host, ran: seq<seq<string>>): RuntimeSpec.Trace
  {
    if host.exit(RuntimeSpec.ListArgs) != 0 then RuntimeSpec.Trace(Fail("Failed to list docker volumes"), ran + [RuntimeSpec.ListArgs])
    else
      var unused := Unused(cont, host);
      var ran := ran + [RuntimeSpec.ListArgs];
      if unused != [] && host.exit(RemoveArgs(unused)) != 0 then
        RuntimeSpec.Trace(Fail("Failed to remove unused docker volumes"), ran + [RemoveArgs(unused)])
      else UpFinish(cont, ctx, host, if unused == [] then ran else ran + [RemoveArgs(unused)])
  }

  /** The tail of `up` from the quota check on, after `ran`. */
  function UpFinish(cont: LegacyStore.DBContainer, ctx: RuntimeSpec.Context, host: Host, ran: seq<seq<string>>): RuntimeSpec.Trace
  {
    match RuntimeSpec.Quotas(cont.units)
    case Err(m) => RuntimeSpec.Trace(Fail(m), ran)
    case Ok(_) =>
      var entries := if cont.env.Some? then cont.env.value else [];
      match RuntimeSpec.EnvLines(LegacyHeader(host.debug, ctx), entries)
      case Err(m) => RuntimeSpec.Trace(Fail(m), ran)
      case Ok(_) =>
        var dry := ComposeUp(cont, ctx, host, true);
        if host.exit(dry) != 0 then RuntimeSpec.Trace(Fail("Failed to run docker compose"), ran + [dry])
        else
          var final := ComposeUp(cont, ctx, host, false);
          RuntimeSpec.Trace(ComposeCheck(host.exit(final)), ran + [dry, final])
  }

  /** The one line every older container gets first. */
  function LegacyHeader(debug: bool, ctx: RuntimeSpec.Context): seq<(string, string)>
  {
    [("ENCLAVE", RuntimeSpec.Mode(debug, ctx.prod))]
  }

  /** `up` step by step. */
  method RunUp(cont: LegacyStore.DBContainer, ctx: RuntimeSpec.Context, host: Host) returns (o: Outcome, ran: seq<seq<string>>)
    ensures RuntimeSpec.Trace(o, ran) == UpSpec(cont, ctx, host)
  {
    if cont.docker == "" {
      return Fail("Specify docker url"), [];
    }
    var pull := ["docker", "pull", cont.docker];
    if host.exit(pull) != 0 {
      return Fail("Failed to pull the docker image"), [pull];
    }
    var inspect := ["docker", "image", "inspect", cont.docker, InspectFormat];
    if host.exit(inspect) != 0 {
      return Fail("Failed to inspect docker image"), [pull, inspect];
    }
    o, ran := RemoveSteps(cont, ctx, host, [pull, inspect]);
  }

  /** The volume loop and the choice of volumes to remove. */
  method StaleVolumes(cont: LegacyStore.DBContainer, host: Host) returns (unused: seq<string>)
    ensures unused == Unused(cont, host)
  {
    var paths := VolumePaths(host.inspectOut);
    var used, mounts := PlanVolumes(paths, host.hash);
    unused := RuntimeSpec.UnusedVolumes(host.volumeList, cont.pubkey, used);
  }

  method RemoveSteps(cont: LegacyStore.DBContainer, ctx: RuntimeSpec.Context, host: Host, ran0: seq<seq<string>>)
    returns (o: Outcome, ran: seq<seq<string>>)
    ensures RuntimeSpec.Trace(o, ran) == UpRemove(cont, ctx, host, ran0)
  {
    var unused := StaleVolumes(cont, host);
    ran := ran0 + [RuntimeSpec.ListArgs];
    if host.exit(RuntimeSpec.ListArgs) != 0 {
      return Fail("Failed to list docker volumes"), ran;
    }
    if unused != [] {
      ran := ran + [RemoveArgs(unused)];
      if host.exit(RemoveArgs(unused)) != 0 {
        return Fail("Failed to remove unused docker volumes"), ran;
      }
    }
    o, ran := FinishSteps(cont, ctx, host, ran);
  }

  method FinishSteps(cont: LegacyStore.DBContainer, ctx: RuntimeSpec.Context, host: Host, ran0: seq<seq<string>>)
    returns (o: Outcome, ran: seq<seq<string>>)
    ensures RuntimeSpec.Trace(o, ran) == UpFinish(cont, ctx, host, ran0)
  {
    ran := ran0;
    var q := RuntimeSpec.Quotas(cont.units);
    if q.Err? {
      return Fail(q.msg), ran;
    }
    var entries := if cont.env.Some? then cont.env.value else [];
    var env := RuntimeSpec.BuildEnv(LegacyHeader(host.debug, ctx), entries);
    if env.Err? {
      return Fail(env.msg), ran;
    }
    var dry := ComposeUp(cont, ctx, host, true);
    ran := ran + [dry];
    if host.exit(dry) != 0 {
      return Fail("Failed to run docker compose"), ran;
    }
    var final := ComposeUp(cont, ctx, host, false);
    ran := ran + [final];
    o := ComposeCheck(host.exit(final));
  }

  /** Without a docker reference nothing runs. */
  lemma UpNeedsDocker(cont: LegacyStore.DBContainer, ctx: RuntimeSpec.Context, host: Host)
    requires cont.docker == ""
    ensures UpSpec(cont, ctx, host) == RuntimeSpec.Trace(Fail("Specify docker url"), [])
  {
  }

  /** The command lines run before the quota check when every host step succeeds. */
  function BeforeFinish(cont: LegacyStore.DBContainer, host: Host): seq<seq<string>>
  {
    var ran := [["docker", "pull", cont.docker], ["docker", "image", "inspect", cont.docker, InspectFormat]] + [RuntimeSpec.ListArgs];
    if Unused(cont, host) == [] then ran else ran + [RemoveArgs(Unused(cont, host))]
  }

  /** A successful `up` went through every host step first. */
  lemma UpReachesFinish(cont: LegacyStore.DBContainer, ctx: RuntimeSpec.Context, host: Host)
    requires UpSpec(cont, ctx, host).outcome == Done
    ensures cont.docker != ""
    ensures UpSpec(cont, ctx, host) == UpFinish(cont, ctx, host, BeforeFinish(cont, host))
  {
    var pre := [["docker", "pull", cont.docker], ["docker", "image", "inspect", cont.docker, InspectFormat]];
    assert UpSpec(cont, ctx, host) == UpRemove(cont, ctx, host, pre);
    RemoveReachesFinish(cont, ctx, host, pre);
  }

  lemma RemoveReachesFinish(cont: LegacyStore.DBContainer, ctx: RuntimeSpec.Context, host: Host, ran: seq<seq<string>>)
    requires UpRemove(cont, ctx, host, ran).outcome == Done
    ensures var listed := ran + [RuntimeSpec.ListArgs];
      UpRemove(cont, ctx, host, ran)
      == UpFinish(cont, ctx, host, if Unused(cont, host) == [] then listed else listed + [RemoveArgs(Unused(cont, host))])
  {
  }

  lemma FinishDone(cont: LegacyStore.DBContainer, ctx: RuntimeSpec.Context, host: Host, ran0: seq<seq<string>>)
    requires UpFinish(cont, ctx, host, ran0).outcome == Done
    ensures RuntimeSpec.Quotas(cont.units).Ok? && cont.units <= 50
    ensures cont.env.Some? ==> forall k :: 0 <= k < |cont.env.value| ==> RuntimeSpec.EnvEntryOk(cont.env.value[k])
    ensures UpFinish(cont, ctx, host, ran0).ran == ran0 + [ComposeUp(cont, ctx, host, true), ComposeUp(cont, ctx, host, false)]
  {
    var entries := if cont.env.Some? then cont.env.value else [];
    RuntimeSpec.EnvLinesAccepts(LegacyHeader(host.debug, ctx), entries);
  }

  /** A successful `up` had valid quotas and env, and ended with the dry and
      the real compose up. */
  lemma UpDone(cont: LegacyStore.DBContainer, ctx: RuntimeSpec.Context, host: Host)
    requires UpSpec(cont, ctx, host).outcome == Done
    ensures cont.docker != "" && RuntimeSpec.Quotas(cont.units).Ok? && cont.units <= 50
    ensures cont.env.Some? ==> forall k :: 0 <= k < |cont.env.value| ==> RuntimeSpec.EnvEntryOk(cont.env.value[k])
    ensures var ran := UpSpec(cont, ctx, host).ran;
      |ran| >= 2 && ran[|ran| - 2] == ComposeUp(cont, ctx, host, true) && ran[|ran| - 1] == ComposeUp(cont, ctx, host, false)
  {
    UpReachesFinish(cont, ctx, host);
    FinishDone(cont, ctx, host, BeforeFinish(cont, host));
  }

  /** Nothing in use is removed, and only listed volumes of this container. */
  lemma RemovesOnlyStale(cont: LegacyStore.DBContainer, host: Host)
    ensures forall s :: s in Unused(cont, host) ==>
      s in Split(host.volumeList, '\n') && StartsWith(s, cont.pubkey)
      && Trim(s) !in UsedOf(VolumePaths(host.inspectOut), host.hash)
  {
  }

  /** Compose names a volume declared in the file after its project, here
      the pubkey: a listed `<pubkey>_<tag>` volume of one of the image's own
      paths is never taken for one in use, and so is put up for removal. */
  lemma ComposeNamedVolumeRemoved(cont: LegacyStore.DBContainer, host: Host, p: string)
    requires p in VolumePaths(host.inspectOut)
    requires forall k :: 0 <= k < |cont.pubkey| ==> !IsSpace(cont.pubkey[k])
    requires |cont.pubkey| >= 14
    requires host.volumeList == RuntimeSpec.VolumeName(cont.pubkey, p, host.hash)
    ensures host.volumeList in Unused(cont, host)
  {
    var n := host.volumeList;
    RuntimeSpec.VolumeNameUnspaced(cont.pubkey, p, host.hash);
    TrimWithoutSpace(n);
    assert !Contains(n, '\n');
    SplitWithoutSep(n, '\n');
    assert StartsWith(n, cont.pubkey) by {
      assert n[..|cont.pubkey|] == cont.pubkey;
    }
    UsedOfNames(VolumePaths(host.inspectOut), host.hash);
    assert n !in UsedOf(VolumePaths(host.inspectOut), host.hash);
  }
}
