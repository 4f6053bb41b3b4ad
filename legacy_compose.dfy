/** The oldest launcher: compose command lines with an optional project
    name, `launch` from a request (quotas, the `ENCLAVE` line and the
    environment, then compose up dry and for real), and `stop` and `logs`
    addressed by directory and pubkey. Its image check is the one of the
    older runtime. */
module LegacyCompose {
  import opened Common
  import RecordStore
  import RuntimeSpec
  import LegacyDocker

  /** The `docker` arguments of `compose`; `-p name` only for a non-empty name. */
  function ComposeArgs(path: string, name: string, cmd: RuntimeSpec.Cmd, dry: bool): seq<string>
  {
    var args := ["compose", "-f", path + "/compose.yaml"];
    var args := if name != "" then args + ["-p", name] else args;
    var args := args + [RuntimeSpec.CmdName(cmd)];
    var args := if dry then args + ["--dry-run"] else args;
    var args := if cmd == RuntimeSpec.Up then args + ["-d"] else args;
    if cmd == RuntimeSpec.Logs then args + ["-n", "500"] else args
  }

  /** With a name the command line is the older runtime's. */
  lemma ComposeArgsNamed(path: string, name: string, cmd: RuntimeSpec.Cmd, dry: bool)
    requires name != ""
    ensures ComposeArgs(path, name, cmd, dry) == LegacyDocker.ComposeArgs(path, name, cmd, dry)
  {
  }

  /** Without a name the command follows the file directly and no `-p` is passed. */
  lemma ComposeArgsUnnamed(path: string, cmd: RuntimeSpec.Cmd, dry: bool)
    ensures var args := ComposeArgs(path, "", cmd, dry);
      |args| >= 4 && args[..4] == ["compose", "-f", path + "/compose.yaml", RuntimeSpec.CmdName(cmd)]
      && "-p" !in args
  {
    var head := ["compose", "-f", path + "/compose.yaml", RuntimeSpec.CmdName(cmd)];
    var flags := (if dry then ["--dry-run"] else [])
      + (if cmd == RuntimeSpec.Up then ["-d"] else [])
      + (if cmd == RuntimeSpec.Logs then ["-n", "500"] else []);
    assert ComposeArgs(path, "", cmd, dry) == head + flags;
    assert "-p" !in head;
    assert "-p" !in flags;
  }

  /** The spec directory of a container. */
  function SpecPath(dir: string, pubkey: string): (p: string)
    ensures p == RuntimeSpec.GetPath(dir, pubkey)
  {
    dir + "/metadata/" + pubkey
  }

  /** `stop` and `logs`: one compose command without a project name. */
  function StopArgs(dir: string, pubkey: string): seq<string>
  {
    ["docker"] + ComposeArgs(SpecPath(dir, pubkey), "", RuntimeSpec.Stop, false)
  }

  function LogsArgs(dir: string, pubkey: string): seq<string>
  {
    ["docker"] + ComposeArgs(SpecPath(dir, pubkey), "", RuntimeSpec.Logs, false)
  }

  /** What a launch is asked for; `units` 0 stands for an absent count. */
  datatype LaunchRequest = LaunchRequest(
    dir: string,
    docker: string,
    units: int,
    env: Option<RecordStore.Env>,
    key: seq<byte>,
    prod: bool)

  function ComposeUpArgs(req: LaunchRequest, pubkey: string, dry: bool): seq<string>
  {
    ["docker"] + ComposeArgs(SpecPath(req.dir, pubkey), pubkey, RuntimeSpec.Up, dry)
  }

  /** `launch`: the docker reference is required, then quotas and env are
      validated, then compose up runs dry and for real under the project
      named by the key's pubkey. */
  function LaunchSpec(req: LaunchRequest, exit: seq<string> -> int, keyPubkey: seq<byte> -> string, debug: bool): RuntimeSpec.Trace
  {
    if req.docker == "" then RuntimeSpec.Trace(Fail("Specify docker url"), [])
    else
      match RuntimeSpec.Quotas(req.units)
      case Err(m) => RuntimeSpec.Trace(Fail(m), [])
      case Ok(_) =>
        var entries := if req.env.Some? then req.env.value else [];
        match RuntimeSpec.EnvLines([("ENCLAVE", RuntimeSpec.Mode(debug, req.prod))], entries)
        case Err(m) => RuntimeSpec.Trace(Fail(m), [])
        case Ok(_) =>
          var pubkey := keyPubkey(req.key);
          var dry := ComposeUpArgs(req, pubkey, true);
          if exit(dry) != 0 then RuntimeSpec.Trace(Fail("Failed to run docker compose"), [dry])
          else
            var final := ComposeUpArgs(req, pubkey, false);
            RuntimeSpec.Trace(LegacyDocker.ComposeCheck(exit(final)), [dry, final])
  }

  /** `launch` step by step. */
  method Launch(req: LaunchRequest, exit: seq<string> -> int, keyPubkey: seq<byte> -> string, debug: bool)
    returns (o: Outcome, ran: seq<seq<string>>)
    ensures RuntimeSpec.Trace(o, ran) == LaunchSpec(req, exit, keyPubkey, debug)
  {
    if req.docker == "" {
      return Fail("Specify docker url"), [];
    }
    var q := RuntimeSpec.Quotas(req.units);
    if q.Err? {
      return Fail(q.msg), [];
    }
    var entries := if req.env.Some? then req.env.value else [];
    var env := RuntimeSpec.BuildEnv([("ENCLAVE", RuntimeSpec.Mode(debug, req.prod))], entries);
    if env.Err? {
      return Fail(env.msg), [];
    }
    var pubkey := keyPubkey(req.key);
    var dry := ComposeUpArgs(req, pubkey, true);
    if exit(dry) != 0 {
      return Fail("Failed to run docker compose"), [dry];
    }
    var final := ComposeUpArgs(req, pubkey, false);
    o, ran := LegacyDocker.ComposeCheck(exit(final)), [dry, final];
  }

  /** A launch succeeds only with a docker reference, at most 50 units and
      a valid environment, and then runs exactly the dry and the real up,
      both under the key's pubkey as project. */
  lemma LaunchDone(req: LaunchRequest, exit: seq<string> -> int, keyPubkey: seq<byte> -> string, debug: bool)
    requires LaunchSpec(req, exit, keyPubkey, debug).outcome == Done
    ensures req.docker != "" && req.units <= 50
    ensures req.env.Some? ==> forall k :: 0 <= k < |req.env.value| ==> RuntimeSpec.EnvEntryOk(req.env.value[k])
    ensures LaunchSpec(req, exit, keyPubkey, debug).ran
      == [ComposeUpArgs(req, keyPubkey(req.key), true), ComposeUpArgs(req, keyPubkey(req.key), false)]
  {
    var entries := if req.env.Some? then req.env.value else [];
    RuntimeSpec.EnvLinesAccepts([("ENCLAVE", RuntimeSpec.Mode(debug, req.prod))], entries);
  }

  /** A refused launch runs nothing when the refusal is about the request. */
  lemma LaunchRefusalsRunNothing(req: LaunchRequest, exit: seq<string> -> int, keyPubkey: seq<byte> -> string, debug: bool)
    requires req.docker == "" || req.units > 50
    ensures LaunchSpec(req, exit, keyPubkey, debug).ran == []
    ensures req.docker == "" ==> LaunchSpec(req, exit, keyPubkey, debug).outcome == Fail("Specify docker url")
    ensures req.docker != "" ==> LaunchSpec(req, exit, keyPubkey, debug).outcome == Fail("Max units = 50")
  {
  }
}
