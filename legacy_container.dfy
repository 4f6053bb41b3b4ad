/** The older in-enclave container object: it holds its stored record,
    starts announcing itself when it becomes deployed, and launches, stops
    and prints the logs of its compose project. Each start of announcing
    registers one more periodic announcer that is never cancelled, so the
    model counts the registrations. */
module LegacyContainer {
  import opened Common
  import LegacyStore
  import LegacyCompose
  import RuntimeSpec
  import LegacyDocker

  /** Period of every registered announcer, in milliseconds. */
  const AnnounceIntervalMs := 600000

  /** What the container is given besides its record; signer and relays
      only matter to the announcements, which are not modelled. */
  datatype Context = Context(dir: string, prod: bool)

  /** The last deployed value after a run of `setDeployed` calls. */
  function LastDeployed(start: bool, ds: seq<bool>): bool
  {
    if ds == [] then start else ds[|ds| - 1]
  }

  /** The number of false-to-true edges in the deployed flag, starting from
      `start` and applying `ds` one call at a time. */
  function Rises(start: bool, ds: seq<bool>): (n: nat)
    ensures n <= |ds|
  {
    if ds == [] then 0
    else
      var prev := ds[..|ds| - 1];
      Rises(start, prev) + (if ds[|ds| - 1] && !LastDeployed(start, prev) then 1 else 0)
  }

  /** Setting the flag to the value it already has, any number of times,
      starts nothing. */
  lemma {:induction false} SteadyStartsNothing(start: bool, ds: seq<bool>)
    requires forall k :: 0 <= k < |ds| ==> ds[k] == start
    ensures Rises(start, ds) == 0
    ensures LastDeployed(start, ds) == start
  {
    if ds != [] {
      var prev := ds[..|ds| - 1];
      assert forall k :: 0 <= k < |prev| ==> prev[k] == ds[k];
      SteadyStartsNothing(start, prev);
    }
  }

  /** `n` rounds of undeploy-then-deploy, the way a paused and resumed
      container is toggled. */
  function Toggles(n: nat): (ds: seq<bool>)
    ensures |ds| == 2 * n
  {
    if n == 0 then [] else Toggles(n - 1) + [false, true]
  }

  /** Each round of undeploy-then-deploy adds one announcer: nothing
      cancels the earlier ones. */
  lemma {:induction false} TogglesAddAnnouncers(start: bool, n: nat)
    ensures Rises(start, Toggles(n)) == n
    ensures LastDeployed(start, Toggles(n)) == (if n == 0 then start else true)
  {
    if n > 0 {
      TogglesAddAnnouncers(start, n - 1);
      var t := Toggles(n - 1);
      var s1 := t + [false];
      var s2 := s1 + [true];
      assert Toggles(n) == s2;
      assert s2[..|s2| - 1] == s1;
      assert s1[..|s1| - 1] == t;
      assert Rises(start, s1) == Rises(start, t);
      assert LastDeployed(start, s1) == false;
    }
  }

  class Container {
    /** The stored record, whose `deployed` flag the object flips. */
    var info: LegacyStore.DBContainer
    /** How many periodic announcers have been registered so far. */
    var announcers: nat
    const context: Context

    /** A deployed record starts announcing at once. */
    constructor (info: LegacyStore.DBContainer, context: Context)
      ensures this.info == info && this.context == context
      ensures announcers == (if info.deployed then 1 else 0)
    {
      this.info := info;
      this.context := context;
      announcers := if info.deployed then 1 else 0;
    }

    /** Announcing starts only on a false-to-true edge; undeploying stops
        nothing. */
    method SetDeployed(d: bool)
      modifies this
      ensures info == old(info).(deployed := d)
      ensures announcers == old(announcers) + (if d && !old(info.deployed) then 1 else 0)
    {
      if d && !info.deployed {
        announcers := announcers + 1;
      }
      info := info.(deployed := d);
    }

    /** A run of `setDeployed` calls: the announcers grow by the number of
        rising edges of the flag. */
    method SetDeployedAll(ds: seq<bool>)
      modifies this
      ensures info == old(info).(deployed := LastDeployed(old(info.deployed), ds))
      ensures announcers == old(announcers) + Rises(old(info.deployed), ds)
    {
      var i := 0;
      while i < |ds|
        invariant 0 <= i <= |ds|
        invariant info == old(info).(deployed := LastDeployed(old(info.deployed), ds[..i]))
        invariant announcers == old(announcers) + Rises(old(info.deployed), ds[..i])
      {
        assert ds[..i + 1][..i] == ds[..i];
        SetDeployed(ds[i]);
        i := i + 1;
      }
      assert ds[..i] == ds;
    }

    /** The request the compose launcher receives. */
    function Request(): (req: LegacyCompose.LaunchRequest)
      reads this
      ensures req.docker == info.docker && req.env == info.env && req.units == info.units
      ensures req.dir == context.dir && req.key == info.seckey && req.prod == context.prod
    {
      LegacyCompose.LaunchRequest(context.dir, info.docker, info.units, info.env, info.seckey, context.prod)
    }

    /** `launch`: refused without a docker reference, otherwise the compose
        launch of the record's image, environment and units. */
    method Launch(exit: seq<string> -> int, keyPubkey: seq<byte> -> string, debug: bool)
      returns (o: Outcome, ran: seq<seq<string>>)
      ensures info.docker == "" ==> o == Fail("No docker url") && ran == []
      ensures info.docker != "" ==> RuntimeSpec.Trace(o, ran) == LegacyCompose.LaunchSpec(Request(), exit, keyPubkey, debug)
    {
      if info.docker == "" {
        return Fail("No docker url"), [];
      }
      o, ran := LegacyCompose.Launch(Request(), exit, keyPubkey, debug);
    }

    /** `stop`: one compose stop addressed by directory and pubkey. */
    method Stop(exit: seq<string> -> int) returns (o: Outcome, ran: seq<seq<string>>)
      ensures ran == [LegacyCompose.StopArgs(context.dir, info.pubkey)]
      ensures o.Done? <==> exit(ran[0]) == 0
      ensures o.Fail? ==> o.msg == "Failed to run docker compose"
    {
      var args := LegacyCompose.StopArgs(context.dir, info.pubkey);
      o, ran := LegacyDocker.ComposeCheck(exit(args)), [args];
    }

    /** `printLogs`: one compose logs command addressed the same way. */
    method PrintLogs(exit: seq<string> -> int) returns (o: Outcome, ran: seq<seq<string>>)
      ensures ran == [LegacyCompose.LogsArgs(context.dir, info.pubkey)]
      ensures o.Done? <==> exit(ran[0]) == 0
      ensures o.Fail? ==> o.msg == "Failed to run docker compose"
    {
      var args := LegacyCompose.LogsArgs(context.dir, info.pubkey);
      o, ran := LegacyDocker.ComposeCheck(exit(args)), [args];
    }
  }
}
