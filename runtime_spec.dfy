/** How a container is brought up on the host runtime: the compose command
    lines, the resource quotas per unit, the named and sized volumes, the
    removal of the container's stale volumes and the validated environment.
    Commands are argument lists; their exit codes and the listings they
    print come from the host. */
module RuntimeSpec {
  import opened Common
  import Consts
  import Hex
  import RecordStore

  /** The directory, mode and control endpoint a container runs with. */
  datatype Context = Context(dir: string, prod: bool, contEndpoint: string)

  datatype Cmd = Up | Down | Stop | Logs

  function CmdName(c: Cmd): string
  {
    match c
    case Up => "up"
    case Down => "down"
    case Stop => "stop"
    case Logs => "logs"
  }

  /** `getPath`: the container's spec directory, named by the public key of its secret key. */
  function GetPath(dir: string, keyPubkey: string): string
  {
    dir + "/metadata/" + keyPubkey
  }

  /** The arguments of `docker` for `compose`. */
  function ComposeArgs(path: string, pubkey: string, cmd: Cmd, dry: bool, follow: bool): (args: seq<string>)
  {
    ["compose", "-f", path + "/compose.yaml", "-p", pubkey, CmdName(cmd)]
      + (if dry then ["--dry-run"] else [])
      + (if cmd == Up then ["-d"] else [])
      + (if cmd == Logs then (if follow then ["-f"] else ["-n", "500"]) else [])
  }

  /** The compose command lines: file and project first, then the command,
      `--dry-run` exactly when dry, `-d` exactly for up, and for logs `-f`
      when following, else `-n 500`. */
  lemma ComposeArgsLayout(path: string, pubkey: string, cmd: Cmd, dry: bool, follow: bool)
    ensures var args := ComposeArgs(path, pubkey, cmd, dry, follow);
      |args| >= 6
      && args[..6] == ["compose", "-f", path + "/compose.yaml", "-p", pubkey, CmdName(cmd)]
      && (("--dry-run" in args[6..]) <==> dry)
      && (("-d" in args[6..]) <==> cmd == Up)
      && (("-f" in args[6..]) <==> cmd == Logs && follow)
      && (("-n" in args[6..]) <==> cmd == Logs && !follow)
  {
    var head := ["compose", "-f", path + "/compose.yaml", "-p", pubkey, CmdName(cmd)];
    var tail := (if dry then ["--dry-run"] else [])
      + (if cmd == Up then ["-d"] else [])
      + (if cmd == Logs then (if follow then ["-f"] else ["-n", "500"]) else []);
    assert ComposeArgs(path, pubkey, cmd, dry, follow) == head + tail;
    assert (head + tail)[6..] == tail;
  }

  /** After `compose` ran with exit `code`: followed logs run in the background
      unchecked; anything else fails on a non-zero exit. */
  function ComposeCheck(cmd: Cmd, follow: bool, code: int): (o: Outcome)
    ensures o.Fail? <==> !(cmd == Logs && follow) && code != 0
    ensures o.Fail? ==> o.msg == "Failed to run docker compose"
  {
    if cmd == Logs && follow then Done
    else if code != 0 then Fail("Failed to run docker compose")
    else Done
  }

  // ---------------------------------------------------------------------
  // Quotas

  /** Limits derived from the unit count; `cpuTenths` is `cpus` in tenths. */
  datatype Quota = Quota(units: int, cpuTenths: int, memoryMb: int, pids: int, diskMb: int)

  /** `units || 1`, at most 50, then 50 MB memory, 10 pids and 50 MB disk per unit. */
  function Quotas(units: int): (r: Result<Quota>)
    ensures r.Err? <==> units > 50
    ensures r.Err? ==> r.msg == "Max units = 50"
    ensures r.Ok? ==> r.value.units == (if units == 0 then 1 else units)
    ensures r.Ok? ==> var q := r.value;
      q.memoryMb == 50 * q.units && q.pids == 10 * q.units
      && q.diskMb == Consts.DiskPerUnitMb * q.units && q.cpuTenths == q.units
  {
    var u := if units == 0 then 1 else units;
    if u > 50 then Err("Max units = 50")
    else Ok(Quota(u, u, 50 * u, 10 * u, Consts.DiskPerUnitMb * u))
  }

  /** With a valid unit count of at least one, every limit is positive and
      bounded by the 50-unit ceiling. */
  lemma QuotasBounded(units: int)
    requires units >= 0 && Quotas(units).Ok?
    ensures var q := Quotas(units).value;
      1 <= q.units <= 50 && q.memoryMb <= 2500 && q.pids <= 500 && q.diskMb <= 2500 && q.diskMb > 0
  {
  }

  // ---------------------------------------------------------------------
  // Environment

  /** The value of `ENCLAVED` (or `ENCLAVE`): debug when `DEBUG=true`, else the mode. */
  function Mode(debug: bool, prod: bool): string
  {
    if debug then "debug" else if prod then "prod" else "dev"
  }

  /** Why one env entry is refused: a non-string value is checked first,
      then a key with a space or a newline. */
  function EnvError(key: string, v: RecordStore.EnvValue): (m: Option<string>)
    ensures m.None? <==> v.Str? && !Contains(key, ' ') && !Contains(key, '\n')
    ensures v.NonString? ==> m == Some("Invalid env value")
    ensures v.Str? && m.Some? ==> m == Some("Invalid env key")
  {
    if v.NonString? then Some("Invalid env value")
    else if Contains(key, ' ') || Contains(key, '\n') then Some("Invalid env key")
    else None
  }

  /** The environment lines after `header`, one per entry, or the first refusal. */
  function EnvLines(header: seq<(string, string)>, entries: RecordStore.Env): (r: Result<seq<(string, string)>>)
    ensures r.Ok? ==> |r.value| == |header| + |entries| && r.value[..|header|] == header
  {
    if entries == [] then Ok(header)
    else
      var last := entries[|entries| - 1];
      match EnvLines(header, entries[..|entries| - 1])
      case Err(m) => Err(m)
      case Ok(lines) =>
        match EnvError(last.0, last.1)
        case Some(m) => Err(m)
        case None => Ok(lines + [(last.0, last.1.s)])
  }

  predicate EnvEntryOk(e: (string, RecordStore.EnvValue))
  {
    EnvError(e.0, e.1).None?
  }

  /** The environment is accepted exactly when every entry is, and then each
      entry appears after the header, in order, with its string value. */
  lemma {:induction false} EnvLinesAccepts(header: seq<(string, string)>, entries: RecordStore.Env)
    ensures EnvLines(header, entries).Ok? <==> forall k :: 0 <= k < |entries| ==> EnvEntryOk(entries[k])
    ensures EnvLines(header, entries).Ok? ==> forall k :: 0 <= k < |entries| ==>
      EnvLines(header, entries).value[|header| + k] == (entries[k].0, entries[k].1.s)
  {
    if entries != [] {
      var init := entries[..|entries| - 1];
      EnvLinesAccepts(header, init);
      assert forall k :: 0 <= k < |init| ==> init[k] == entries[k];
    }
  }

  /** A refused environment reports the first refused entry's reason. */
  lemma {:induction false} EnvLinesFirstError(header: seq<(string, string)>, entries: RecordStore.Env, i: nat)
    requires i < |entries| && !EnvEntryOk(entries[i])
    requires forall k :: 0 <= k < i ==> EnvEntryOk(entries[k])
    ensures EnvLines(header, entries) == Err(EnvError(entries[i].0, entries[i].1).value)
  {
    var init := entries[..|entries| - 1];
    assert forall k :: 0 <= k < |init| ==> init[k] == entries[k];
    if i < |entries| - 1 {
      EnvLinesFirstError(header, init, i);
    } else {
      EnvLinesAccepts(header, init);
    }
  }

  /** The env loop of `up`. */
  method BuildEnv(header: seq<(string, string)>, entries: RecordStore.Env) returns (r: Result<seq<(string, string)>>)
    ensures r == EnvLines(header, entries)
  {
    var lines := header;
    var i := 0;
    while i < |entries|
      invariant 0 <= i <= |entries|
      invariant EnvLines(header, entries[..i]) == Ok(lines)
    {
      assert entries[..i + 1][..i] == entries[..i];
      var key := entries[i].0;
      var v := entries[i].1;
      if v.NonString? {
        r := Err("Invalid env value");
        assert entries[..i + 1] == entries[..i] + [entries[i]];
        PrefixErrSticks(header, entries, i + 1);
        return;
      }
      if Contains(key, ' ') || Contains(key, '\n') {
        r := Err("Invalid env key");
        PrefixErrSticks(header, entries, i + 1);
        return;
      }
      lines := lines + [(key, v.s)];
      i := i + 1;
    }
    assert entries[..i] == entries;
    r := Ok(lines);
  }

  /** Once a prefix of the entries is refused, so are all of them, for the same reason. */
  lemma {:induction false} PrefixErrSticks(header: seq<(string, string)>, entries: RecordStore.Env, n: nat)
    requires 0 < n <= |entries| && EnvLines(header, entries[..n]).Err?
    ensures EnvLines(header, entries) == EnvLines(header, entries[..n])
    decreases |entries| - n
  {
    if n < |entries| {
      assert entries[..n + 1][..n] == entries[..n];
      PrefixErrSticks(header, entries, n + 1);
    } else {
      assert entries[..n] == entries;
    }
  }

  /** The three lines every newer container gets first. */
  function Header(debug: bool, ctx: Context, token: string): seq<(string, string)>
  {
    [("ENCLAVED", Mode(debug, ctx.prod)), ("ENCLAVED_TOKEN", token), ("ENCLAVED_ENDPOINT", ctx.contEndpoint)]
  }

  // ---------------------------------------------------------------------
  // Volumes

  /** The first 14 hex characters of sha256(path). */
  function HashTag(path: string, hash: string -> seq<byte>): (t: string)
    ensures |t| <= 14
    ensures |hash(path)| >= 7 ==> |t| == 14
  {
    var h := Hex.BytesToHex(hash(path));
    if |h| >= 14 then h[..14] else h
  }

  lemma HashTagIsHex(path: string, hash: string -> seq<byte>)
    ensures var t := HashTag(path, hash); forall k :: 0 <= k < |t| ==> Hex.HexValue(t[k]).Some?
  {
    Hex.BytesToHexIsHex(hash(path));
  }

  function VolumeName(pubkey: string, path: string, hash: string -> seq<byte>): (n: string)
    ensures StartsWith(n, pubkey + "_")
  {
    pubkey + "_" + HashTag(path, hash)
  }

  /** `Math.floor(units * DISK_PER_UNIT_MB / count)`. */
  function VolumeSize(units: int, count: nat): (size: int)
    requires count > 0
    ensures size * count <= units * Consts.DiskPerUnitMb < (size + 1) * count
  {
    (units * Consts.DiskPerUnitMb) / count
  }

  function CreateArgs(name: string, size: int): seq<string>
  {
    ["docker", "volume", "create", "-o", "size=" + IntToString(size) + "M", name]
  }

  predicate Blank(path: string)
  {
    Trim(path) == ""
  }

  /** The volume loop on `paths` (a prefix of the image's `count` volume
      paths): the create commands run, the names used and whether all
      creates succeeded. The loop stops at the first failing create. */
  datatype VolumeRun = VolumeRun(ok: bool, ran: seq<seq<string>>, used: map<string, string>)

  function CreateVolumes(paths: seq<string>, count: nat, pubkey: string, units: int,
                         hash: string -> seq<byte>, exit: seq<string> -> int): (r: VolumeRun)
    requires |paths| <= count
    ensures |r.ran| <= |paths|
  {
    if paths == [] then VolumeRun(true, [], map[])
    else
      var prev := CreateVolumes(paths[..|paths| - 1], count, pubkey, units, hash, exit);
      var path := paths[|paths| - 1];
      if !prev.ok || Blank(path) then prev
      else
        var name := VolumeName(pubkey, path, hash);
        var cmd := CreateArgs(name, VolumeSize(units, count));
        VolumeRun(exit(cmd) == 0, prev.ran + [cmd], prev.used[name := path])
  }

  function NonBlank(paths: seq<string>): (r: seq<string>)
    ensures |r| <= |paths|
    ensures forall p :: p in r <==> p in paths && !Blank(p)
  {
    if paths == [] then []
    else NonBlank(paths[..|paths| - 1]) + (if Blank(paths[|paths| - 1]) then [] else [paths[|paths| - 1]])
  }

  /** The create command of every non-blank path, in order. */
  function PlannedCreates(paths: seq<string>, count: nat, pubkey: string, units: int,
                          hash: string -> seq<byte>): (r: seq<seq<string>>)
    requires 0 < count
    ensures |r| == |NonBlank(paths)|
    ensures forall k :: 0 <= k < |r| ==>
      r[k] == CreateArgs(VolumeName(pubkey, NonBlank(paths)[k], hash), VolumeSize(units, count))
  {
    if paths == [] then []
    else
      var path := paths[|paths| - 1];
      PlannedCreates(paths[..|paths| - 1], count, pubkey, units, hash)
        + (if Blank(path) then [] else [CreateArgs(VolumeName(pubkey, path, hash), VolumeSize(units, count))])
  }

  /** When every create succeeds, the creates run are the planned ones. */
  lemma {:induction false} CreateVolumesDone(paths: seq<string>, count: nat, pubkey: string, units: int,
                                              hash: string -> seq<byte>, exit: seq<string> -> int)
    requires 0 < count && |paths| <= count
    requires CreateVolumes(paths, count, pubkey, units, hash, exit).ok
    ensures CreateVolumes(paths, count, pubkey, units, hash, exit).ran == PlannedCreates(paths, count, pubkey, units, hash)
  {
    if paths != [] {
      CreateVolumesDone(paths[..|paths| - 1], count, pubkey, units, hash, exit);
    }
  }

  /** One more path keeps the names already in use and adds its own. */
  lemma CreateVolumesGrows(paths: seq<string>, count: nat, pubkey: string, units: int,
                           hash: string -> seq<byte>, exit: seq<string> -> int)
    requires 0 < count && 0 < |paths| <= count
    requires CreateVolumes(paths, count, pubkey, units, hash, exit).ok
    ensures CreateVolumes(paths[..|paths| - 1], count, pubkey, units, hash, exit).ok
    ensures CreateVolumes(paths[..|paths| - 1], count, pubkey, units, hash, exit).used.Keys
      <= CreateVolumes(paths, count, pubkey, units, hash, exit).used.Keys
    ensures !Blank(paths[|paths| - 1]) ==>
      VolumeName(pubkey, paths[|paths| - 1], hash) in CreateVolumes(paths, count, pubkey, units, hash, exit).used
  {
  }

  /** When every create succeeds, each non-blank path is in use under its name. */
  lemma {:induction false} CreateVolumesUses(paths: seq<string>, count: nat, pubkey: string, units: int,
                                              hash: string -> seq<byte>, exit: seq<string> -> int)
    requires 0 < count && |paths| <= count
    requires CreateVolumes(paths, count, pubkey, units, hash, exit).ok
    ensures forall p :: p in paths && !Blank(p) ==>
      VolumeName(pubkey, p, hash) in CreateVolumes(paths, count, pubkey, units, hash, exit).used
  {
    if paths != [] {
      var init := paths[..|paths| - 1];
      CreateVolumesGrows(paths, count, pubkey, units, hash, exit);
      CreateVolumesUses(init, count, pubkey, units, hash, exit);
      var used := CreateVolumes(paths, count, pubkey, units, hash, exit).used;
      var usedBefore := CreateVolumes(init, count, pubkey, units, hash, exit).used;
      assert paths == init + [paths[|paths| - 1]];
      forall p | p in paths && !Blank(p)
        ensures VolumeName(pubkey, p, hash) in used
      {
        if p in init {
          assert VolumeName(pubkey, p, hash) in usedBefore;
        }
      }
    }
  }

  /** The sizes handed out never add up to more than the unit's disk share. */
  lemma VolumeSizesWithinShare(paths: seq<string>, units: nat)
    requires |paths| > 0
    ensures |NonBlank(paths)| * VolumeSize(units, |paths|) <= units * Consts.DiskPerUnitMb
  {
    var size := VolumeSize(units, |paths|);
    var n := |NonBlank(paths)|;
    assert size >= 0;
    assert n * size <= |paths| * size by {
      MulMono(n, |paths|, size);
    }
  }

  lemma MulMono(a: nat, b: nat, c: nat)
    requires a <= b
    ensures a * c <= b * c
  {
  }

  /** `removeUnused`: the listed volumes of this container that are not in use. */
  function UnusedVolumes(listing: string, pubkey: string, used: map<string, string>): (r: seq<string>)
    ensures forall s :: s in r <==> s in Split(listing, '\n') && StartsWith(s, pubkey) && Trim(s) !in used
  {
    Filter(Filter(Split(listing, '\n'), s => StartsWith(s, pubkey)), s => Trim(s) !in used)
  }

  /** A volume created for one of the container's paths is never listed for
      removal, whatever the listing says (given a pubkey without white space). */
  lemma CleanupKeepsCreated(listing: string, paths: seq<string>, count: nat, pubkey: string, units: int,
                            hash: string -> seq<byte>, exit: seq<string> -> int, p: string)
    requires 0 < count && |paths| <= count
    requires CreateVolumes(paths, count, pubkey, units, hash, exit).ok
    requires p in paths && !Blank(p)
    requires forall k :: 0 <= k < |pubkey| ==> !IsSpace(pubkey[k])
    ensures VolumeName(pubkey, p, hash) !in UnusedVolumes(listing, pubkey, CreateVolumes(paths, count, pubkey, units, hash, exit).used)
  {
    CreateVolumesUses(paths, count, pubkey, units, hash, exit);
    VolumeNameUnspaced(pubkey, p, hash);
    TrimWithoutSpace(VolumeName(pubkey, p, hash));
  }

  lemma VolumeNameUnspaced(pubkey: string, p: string, hash: string -> seq<byte>)
    requires forall k :: 0 <= k < |pubkey| ==> !IsSpace(pubkey[k])
    ensures var n := VolumeName(pubkey, p, hash); forall k :: 0 <= k < |n| ==> !IsSpace(n[k])
  {
    var n := VolumeName(pubkey, p, hash);
    var t := HashTag(p, hash);
    HashTagIsHex(p, hash);
    assert n == pubkey + "_" + t;
    forall k | 0 <= k < |n| ensures !IsSpace(n[k]) {
      if k < |pubkey| {
        assert n[k] == pubkey[k];
      } else if k > |pubkey| {
        assert n[k] == t[k - |pubkey| - 1];
        assert Hex.HexValue(t[k - |pubkey| - 1]).Some?;
      }
    }
  }

  function RmdirArgs(name: string): seq<string>
  {
    ["rm", "-Rf", "/mnt/xfs/volumes/" + name]
  }

  /** The directory loop over `names`: the commands run, and whether all succeeded. */
  datatype DirRun = DirRun(ok: bool, ran: seq<seq<string>>)

  function RemoveDirs(names: seq<string>, exit: seq<string> -> int): (r: DirRun)
    ensures |r.ran| <= |names|
    ensures r.ok ==> r.ran == seq(|names|, k requires 0 <= k < |names| => RmdirArgs(names[k]))
  {
    if names == [] then DirRun(true, [])
    else
      var prev := RemoveDirs(names[..|names| - 1], exit);
      if !prev.ok then prev
      else
        var cmd := RmdirArgs(names[|names| - 1]);
        DirRun(exit(cmd) == 0, prev.ran + [cmd])
  }

  // ---------------------------------------------------------------------
  // Bringing a container up

  /** What the host answers: exit codes per command line, the keys of the
      image's volume table, the volume listing, sha256, the public key of a
      secret key, and whether `DEBUG=true`. */
  datatype Host = Host(
    exit: seq<string> -> int,
    imageVolumes: seq<string>,
    volumeList: string,
    hash: string -> seq<byte>,
    keyPubkey: seq<byte> -> string,
    debug: bool)

  /** How `up` ended and the command lines it ran, in order. */
  datatype Trace = Trace(outcome: Outcome, ran: seq<seq<string>>)

  const ListArgs: seq<string> := ["docker", "volume", "ls", "-q"]

  function ComposeUp(cont: RecordStore.DBContainer, ctx: Context, host: Host, dry: bool): seq<string>
  {
    ["docker"] + ComposeArgs(GetPath(ctx.dir, host.keyPubkey(cont.seckey)), cont.pubkey, Up, dry, false)
  }

  /** The tail of `up` from the quota check on, after `ran`. */
  function UpFinish(cont: RecordStore.DBContainer, ctx: Context, host: Host, ran: seq<seq<string>>): Trace
  {
    match Quotas(cont.units)
    case Err(m) => Trace(Fail(m), ran)
    case Ok(_) =>
      var entries := if cont.env.Some? then cont.env.value else [];
      match EnvLines(Header(host.debug, ctx, cont.token), entries)
      case Err(m) => Trace(Fail(m), ran)
      case Ok(_) =>
        var dry := ComposeUp(cont, ctx, host, true);
        if ComposeCheck(Up, false, host.exit(dry)).Fail? then Trace(Fail("Failed to run docker compose"), ran + [dry])
        else
          var final := ComposeUp(cont, ctx, host, false);
          Trace(ComposeCheck(Up, false, host.exit(final)), ran + [dry, final])
  }

  /** `up`: pull, inspect, create the volumes, remove stale ones, then
      validate quotas and env and run compose dry and for real. */
  function UpSpec(cont: RecordStore.DBContainer, ctx: Context, host: Host): Trace
  {
    if cont.docker == "" then Trace(Fail("Specify docker url"), [])
    else
      var pull := ["docker", "pull", cont.docker];
      if host.exit(pull) != 0 then Trace(Fail("Failed to pull the docker image"), [pull])
      else
        var inspect := ["docker", "image", "inspect", cont.docker];
        if host.exit(inspect) != 0 then Trace(Fail("Failed to inspect docker image"), [pull, inspect])
        else UpVolumes(cont, ctx, host, [pull, inspect, ListArgs])
  }

  function Created(cont: RecordStore.DBContainer, host: Host): VolumeRun
  {
    CreateVolumes(host.imageVolumes, |host.imageVolumes|, cont.pubkey, cont.units, host.hash, host.exit)
  }

  /** The volume phase of `up` after `ran`: creates, then the listing. */
  function UpVolumes(cont: RecordStore.DBContainer, ctx: Context, host: Host, ran: seq<seq<string>>): Trace
  {
    var vr := Created(cont, host);
    if !vr.ok then Trace(Fail("Failed to create docker volume"), ran + vr.ran)
    else if host.exit(ListArgs) != 0 then Trace(Fail("Failed to list docker volumes"), ran + vr.ran + [ListArgs])
    else UpCleanup(cont, ctx, host, UnusedVolumes(host.volumeList, cont.pubkey, vr.used), ran + vr.ran + [ListArgs])
  }

  /** The cleanup phase of `up` after `ran`: remove `unused` and their directories. */
  function UpCleanup(cont: RecordStore.DBContainer, ctx: Context, host: Host, unused: seq<string>, ran: seq<seq<string>>): Trace
  {
    if unused == [] then UpFinish(cont, ctx, host, ran)
    else
      var rm := ["docker", "volume", "rm"] + unused;
      if host.exit(rm) != 0 then Trace(Fail("Failed to remove unused docker volumes"), ran + [rm])
      else
        var dr := RemoveDirs(unused, host.exit);
        if !dr.ok then Trace(Fail("Failed to delete volume dir"), ran + [rm] + dr.ran)
        else UpFinish(cont, ctx, host, ran + [rm] + dr.ran)
  }

  /** The volume loop of `up`. */
  method CreateVolumesLoop(paths: seq<string>, pubkey: string, units: int,
                           hash: string -> seq<byte>, exit: seq<string> -> int) returns (r: VolumeRun)
    ensures r == CreateVolumes(paths, |paths|, pubkey, units, hash, exit)
  {
    var used: map<string, string> := map[];
    var ran: seq<seq<string>> := [];
    var i := 0;
    while i < |paths|
      invariant 0 <= i <= |paths|
      invariant CreateVolumes(paths[..i], |paths|, pubkey, units, hash, exit) == VolumeRun(true, ran, used)
    {
      assert paths[..i + 1][..i] == paths[..i];
      var path := paths[i];
      if Trim(path) == "" {
        i := i + 1;
        continue;
      }
      var size := (units * Consts.DiskPerUnitMb) / |paths|;
      var name := pubkey + "_" + HashTag(path, hash);
      used := used[name := path];
      var cmd := ["docker", "volume", "create", "-o", "size=" + IntToString(size) + "M", name];
      ran := ran + [cmd];
      if exit(cmd) != 0 {
        r := VolumeRun(false, ran, used);
        VolumeFailSticks(paths, i + 1, pubkey, units, hash, exit);
        return;
      }
      i := i + 1;
    }
    assert paths[..i] == paths;
    r := VolumeRun(true, ran, used);
  }

  lemma {:induction false} VolumeFailSticks(paths: seq<string>, n: nat, pubkey: string, units: int,
                                            hash: string -> seq<byte>, exit: seq<string> -> int)
    requires 0 < n <= |paths| && !CreateVolumes(paths[..n], |paths|, pubkey, units, hash, exit).ok
    ensures CreateVolumes(paths, |paths|, pubkey, units, hash, exit) == CreateVolumes(paths[..n], |paths|, pubkey, units, hash, exit)
    decreases |paths| - n
  {
    if n < |paths| {
      assert paths[..n + 1][..n] == paths[..n];
      VolumeFailSticks(paths, n + 1, pubkey, units, hash, exit);
    } else {
      assert paths[..n] == paths;
    }
  }

  /** The directory loop of `up`. */
  method RemoveDirsLoop(names: seq<string>, exit: seq<string> -> int) returns (r: DirRun)
    ensures r == RemoveDirs(names, exit)
  {
    var ran: seq<seq<string>> := [];
    var i := 0;
    while i < |names|
      invariant 0 <= i <= |names|
      invariant RemoveDirs(names[..i], exit) == DirRun(true, ran)
    {
      assert names[..i + 1][..i] == names[..i];
      var cmd := ["rm", "-Rf", "/mnt/xfs/volumes/" + names[i]];
      ran := ran + [cmd];
      if exit(cmd) != 0 {
        r := DirRun(false, ran);
        DirFailSticks(names, i + 1, exit);
        return;
      }
      i := i + 1;
    }
    assert names[..i] == names;
    r := DirRun(true, ran);
  }

  lemma {:induction false} DirFailSticks(names: seq<string>, n: nat, exit: seq<string> -> int)
    requires 0 < n <= |names| && !RemoveDirs(names[..n], exit).ok
    ensures RemoveDirs(names, exit) == RemoveDirs(names[..n], exit)
    decreases |names| - n
  {
    if n < |names| {
      assert names[..n + 1][..n] == names[..n];
      DirFailSticks(names, n + 1, exit);
    } else {
      assert names[..n] == names;
    }
  }

  method UpFinishSteps(cont: RecordStore.DBContainer, ctx: Context, host: Host, ran0: seq<seq<string>>)
    returns (o: Outcome, ran: seq<seq<string>>)
    ensures Trace(o, ran) == UpFinish(cont, ctx, host, ran0)
  {
    ran := ran0;
    var q := Quotas(cont.units);
    if q.Err? {
      return Fail(q.msg), ran;
    }
    var entries := if cont.env.Some? then cont.env.value else [];
    var env := BuildEnv(Header(host.debug, ctx, cont.token), entries);
    if env.Err? {
      return Fail(env.msg), ran;
    }
    var path := GetPath(ctx.dir, host.keyPubkey(cont.seckey));
    var dry := ["docker"] + ComposeArgs(path, cont.pubkey, Up, true, false);
    ran := ran + [dry];
    if host.exit(dry) != 0 {
      return Fail("Failed to run docker compose"), ran;
    }
    var final := ["docker"] + ComposeArgs(path, cont.pubkey, Up, false, false);
    ran := ran + [final];
    o := ComposeCheck(Up, false, host.exit(final));
  }

  method UpVolumesSteps(cont: RecordStore.DBContainer, ctx: Context, host: Host, ran0: seq<seq<string>>)
    returns (o: Outcome, ran: seq<seq<string>>)
    ensures Trace(o, ran) == UpVolumes(cont, ctx, host, ran0)
  {
    var vr := CreateVolumesLoop(host.imageVolumes, cont.pubkey, cont.units, host.hash, host.exit);
    ran := ran0 + vr.ran;
    if !vr.ok {
      return Fail("Failed to create docker volume"), ran;
    }
    ran := ran + [ListArgs];
    if host.exit(ListArgs) != 0 {
      return Fail("Failed to list docker volumes"), ran;
    }
    var unused := UnusedVolumes(host.volumeList, cont.pubkey, vr.used);
    o, ran := UpCleanupSteps(cont, ctx, host, unused, ran);
  }

  method UpCleanupSteps(cont: RecordStore.DBContainer, ctx: Context, host: Host, unused: seq<string>, ran0: seq<seq<string>>)
    returns (o: Outcome, ran: seq<seq<string>>)
    ensures Trace(o, ran) == UpCleanup(cont, ctx, host, unused, ran0)
  {
    ran := ran0;
    if unused != [] {
      var rm := ["docker", "volume", "rm"] + unused;
      ran := ran + [rm];
      if host.exit(rm) != 0 {
        return Fail("Failed to remove unused docker volumes"), ran;
      }
      var dr := RemoveDirsLoop(unused, host.exit);
      ran := ran + dr.ran;
      if !dr.ok {
        return Fail("Failed to delete volume dir"), ran;
      }
    }
    o, ran := UpFinishSteps(cont, ctx, host, ran);
  }

  /** `up` on the host: the outcome and every command line it ran. */
  method RunUp(cont: RecordStore.DBContainer, ctx: Context, host: Host) returns (o: Outcome, ran: seq<seq<string>>)
    ensures Trace(o, ran) == UpSpec(cont, ctx, host)
  {
    if cont.docker == "" {
      return Fail("Specify docker url"), [];
    }
    var pull := ["docker", "pull", cont.docker];
    if host.exit(pull) != 0 {
      return Fail("Failed to pull the docker image"), [pull];
    }
    var inspect := ["docker", "image", "inspect", cont.docker];
    if host.exit(inspect) != 0 {
      return Fail("Failed to inspect docker image"), [pull, inspect];
    }
    o, ran := UpVolumesSteps(cont, ctx, host, [pull, inspect, ListArgs]);
  }

  /** Without a docker reference nothing runs. */
  lemma UpNeedsDocker(cont: RecordStore.DBContainer, ctx: Context, host: Host)
    requires cont.docker == ""
    ensures UpSpec(cont, ctx, host) == Trace(Fail("Specify docker url"), [])
  {
  }

  /** The command lines run before the quota check on the path where every
      earlier step succeeds. */
  function BeforeFinish(cont: RecordStore.DBContainer, host: Host): seq<seq<string>>
  {
    var vr := Created(cont, host);
    var unused := UnusedVolumes(host.volumeList, cont.pubkey, vr.used);
    var ran := [["docker", "pull", cont.docker], ["docker", "image", "inspect", cont.docker], ListArgs] + vr.ran + [ListArgs];
    if unused == [] then ran else ran + [["docker", "volume", "rm"] + unused] + RemoveDirs(unused, host.exit).ran
  }

  /** An `up` that gets past the host steps ends the way its finishing phase does. */
  lemma UpReachesFinish(cont: RecordStore.DBContainer, ctx: Context, host: Host)
    requires UpSpec(cont, ctx, host).outcome == Done || UpSpec(cont, ctx, host).outcome == Fail("Max units = 50")
    ensures cont.docker != ""
    ensures UpSpec(cont, ctx, host) == UpFinish(cont, ctx, host, BeforeFinish(cont, host))
  {
  }

  lemma FinishDone(cont: RecordStore.DBContainer, ctx: Context, host: Host, ran0: seq<seq<string>>)
    requires UpFinish(cont, ctx, host, ran0).outcome == Done
    ensures Quotas(cont.units).Ok? && cont.units <= 50
    ensures cont.env.Some? ==> forall k :: 0 <= k < |cont.env.value| ==> EnvEntryOk(cont.env.value[k])
    ensures UpFinish(cont, ctx, host, ran0).ran == ran0 + [ComposeUp(cont, ctx, host, true), ComposeUp(cont, ctx, host, false)]
  {
    var entries := if cont.env.Some? then cont.env.value else [];
    EnvLinesAccepts(Header(host.debug, ctx, cont.token), entries);
  }

  /** A successful `up` had valid quotas and env and ended with the dry and
      the real compose up. */
  lemma UpDone(cont: RecordStore.DBContainer, ctx: Context, host: Host)
    requires UpSpec(cont, ctx, host).outcome == Done
    ensures Quotas(cont.units).Ok? && cont.units <= 50
    ensures cont.env.Some? ==> forall k :: 0 <= k < |cont.env.value| ==> EnvEntryOk(cont.env.value[k])
    ensures var ran := UpSpec(cont, ctx, host).ran;
      |ran| >= 2 && ran[|ran| - 2] == ComposeUp(cont, ctx, host, true) && ran[|ran| - 1] == ComposeUp(cont, ctx, host, false)
  {
    UpReachesFinish(cont, ctx, host);
    FinishDone(cont, ctx, host, BeforeFinish(cont, host));
  }

  /** Volumes are created and stale ones removed before the unit limit is
      checked: when the host steps succeed, an over-limit container fails
      only after all its volume creates have run. */
  lemma UpChecksUnitsLate(cont: RecordStore.DBContainer, ctx: Context, host: Host)
    requires cont.docker != "" && cont.units > 50
    requires host.exit(["docker", "pull", cont.docker]) == 0
    requires host.exit(["docker", "image", "inspect", cont.docker]) == 0
    requires Created(cont, host).ok && host.exit(ListArgs) == 0
    requires var unused := UnusedVolumes(host.volumeList, cont.pubkey, Created(cont, host).used);
      unused != [] ==> host.exit(["docker", "volume", "rm"] + unused) == 0 && RemoveDirs(unused, host.exit).ok
    ensures UpSpec(cont, ctx, host).outcome == Fail("Max units = 50")
    ensures var vr := Created(cont, host);
      forall k :: 0 <= k < |vr.ran| ==> vr.ran[k] in UpSpec(cont, ctx, host).ran
  {
    UpOverLimitTrace(cont, ctx, host);
    CreatesBeforeFinish(cont, host);
  }

  lemma UpOverLimitTrace(cont: RecordStore.DBContainer, ctx: Context, host: Host)
    requires cont.docker != "" && cont.units > 50
    requires host.exit(["docker", "pull", cont.docker]) == 0
    requires host.exit(["docker", "image", "inspect", cont.docker]) == 0
    requires Created(cont, host).ok && host.exit(ListArgs) == 0
    requires var unused := UnusedVolumes(host.volumeList, cont.pubkey, Created(cont, host).used);
      unused != [] ==> host.exit(["docker", "volume", "rm"] + unused) == 0 && RemoveDirs(unused, host.exit).ok
    ensures UpSpec(cont, ctx, host) == Trace(Fail("Max units = 50"), BeforeFinish(cont, host))
  {
    var vr := Created(cont, host);
    var unused := UnusedVolumes(host.volumeList, cont.pubkey, vr.used);
    var pre := [["docker", "pull", cont.docker], ["docker", "image", "inspect", cont.docker], ListArgs];
    var mid := pre + vr.ran + [ListArgs];
    assert UpSpec(cont, ctx, host) == UpVolumes(cont, ctx, host, pre);
    VolumesReachCleanup(cont, ctx, host, pre);
    CleanupReachesFinish(cont, ctx, host, unused, mid);
    FinishOverLimit(cont, ctx, host, BeforeFinish(cont, host));
  }

  /** The volume creates are among the commands run before the finishing phase. */
  lemma CreatesBeforeFinish(cont: RecordStore.DBContainer, host: Host)
    ensures var vr := Created(cont, host);
      forall k :: 0 <= k < |vr.ran| ==> vr.ran[k] in BeforeFinish(cont, host)
  {
    var vr := Created(cont, host);
    var unused := UnusedVolumes(host.volumeList, cont.pubkey, vr.used);
    var pre := [["docker", "pull", cont.docker], ["docker", "image", "inspect", cont.docker], ListArgs];
    var post := if unused == [] then [ListArgs] else [ListArgs] + [["docker", "volume", "rm"] + unused] + RemoveDirs(unused, host.exit).ran;
    assert BeforeFinish(cont, host) == pre + vr.ran + post;
    InMiddle(pre, vr.ran, post);
  }

  lemma InMiddle<T>(pre: seq<T>, xs: seq<T>, post: seq<T>)
    ensures forall k :: 0 <= k < |xs| ==> xs[k] in pre + xs + post
  {
    forall k | 0 <= k < |xs| ensures xs[k] in pre + xs + post {
      assert (pre + xs + post)[|pre| + k] == xs[k];
    }
  }

  /** In particular on a host where every command succeeds. */
  lemma UpChecksUnitsLateOnGoodHost(cont: RecordStore.DBContainer, ctx: Context, host: Host)
    requires cont.docker != "" && cont.units > 50
    requires forall c :: host.exit(c) == 0
    ensures UpSpec(cont, ctx, host).outcome == Fail("Max units = 50")
  {
    AllCreatesSucceed(host.imageVolumes, |host.imageVolumes|, cont.pubkey, cont.units, host.hash, host.exit);
    var unused := UnusedVolumes(host.volumeList, cont.pubkey, Created(cont, host).used);
    AllDirsRemoved(unused, host.exit);
    Succeeds(host.exit, ["docker", "pull", cont.docker]);
    Succeeds(host.exit, ["docker", "image", "inspect", cont.docker]);
    Succeeds(host.exit, ListArgs);
    Succeeds(host.exit, ["docker", "volume", "rm"] + unused);
    UpChecksUnitsLate(cont, ctx, host);
  }

  lemma Succeeds(exit: seq<string> -> int, c: seq<string>)
    requires forall c :: exit(c) == 0
    ensures exit(c) == 0
  {
  }

  lemma VolumesReachCleanup(cont: RecordStore.DBContainer, ctx: Context, host: Host, ran: seq<seq<string>>)
    requires Created(cont, host).ok && host.exit(ListArgs) == 0
    ensures UpVolumes(cont, ctx, host, ran)
      == UpCleanup(cont, ctx, host, UnusedVolumes(host.volumeList, cont.pubkey, Created(cont, host).used),
                   ran + Created(cont, host).ran + [ListArgs])
  {
  }

  lemma CleanupReachesFinish(cont: RecordStore.DBContainer, ctx: Context, host: Host, unused: seq<string>, ran: seq<seq<string>>)
    requires unused != [] ==> host.exit(["docker", "volume", "rm"] + unused) == 0 && RemoveDirs(unused, host.exit).ok
    ensures UpCleanup(cont, ctx, host, unused, ran)
      == UpFinish(cont, ctx, host,
                  if unused == [] then ran else ran + [["docker", "volume", "rm"] + unused] + RemoveDirs(unused, host.exit).ran)
  {
  }

  lemma FinishOverLimit(cont: RecordStore.DBContainer, ctx: Context, host: Host, ran: seq<seq<string>>)
    requires cont.units > 50
    ensures UpFinish(cont, ctx, host, ran) == Trace(Fail("Max units = 50"), ran)
  {
  }

  lemma {:induction false} AllCreatesSucceed(paths: seq<string>, count: nat, pubkey: string, units: int,
                                             hash: string -> seq<byte>, exit: seq<string> -> int)
    requires |paths| <= count && forall c :: exit(c) == 0
    ensures CreateVolumes(paths, count, pubkey, units, hash, exit).ok
  {
    if paths != [] {
      AllCreatesSucceed(paths[..|paths| - 1], count, pubkey, units, hash, exit);
    }
  }

  lemma {:induction false} AllDirsRemoved(names: seq<string>, exit: seq<string> -> int)
    requires forall c :: exit(c) == 0
    ensures RemoveDirs(names, exit).ok
  {
    if names != [] {
      AllDirsRemoved(names[..|names| - 1], exit);
    }
  }
}
