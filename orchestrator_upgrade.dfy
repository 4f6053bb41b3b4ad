/** The upgrade monitor's pass: each eligible container's newer signed
    releases are tried newest first, a candidate is used only when the
    registry's manifest and labels agree with the release event, the first
    upgrade that goes through is committed, and a container still marked as
    upgrading afterwards is rolled back to the image it ran before. */
module OrchestratorUpgrade {
  import opened Common
  import RecordStore
  import Releases
  import opened OrchestratorSpec

  /** What the registry says about an image: the digest of its config and
      the repository and version labels (absent labels are `None`). */
  datatype ImageInfo = ImageInfo(digest: string, repo: Option<string>, version: Option<string>)

  /** The registry side of a pass: `releases` is the image inspection plus
      the release check for a running image (an `Err` when either fails or
      no list comes back), `image` the manifest and labels of a release's
      image (an `Err` when fetching or parsing fails). */
  datatype Registry = Registry(
    releases: string -> Result<seq<Releases.Event>>,
    image: string -> Result<ImageInfo>)

  const DigestPrefix: string := "sha256:"

  /** Only deployed, non-built-in containers with an image and the `auto`
      upgrade policy are considered. */
  predicate Eligible(c: Cont)
  {
    !c.info.isBuiltin && c.info.state == RecordStore.Deployed && c.info.docker != "" && c.info.upgrade == "auto"
  }

  /** The text of `s` before the first occurrence of `sep`, the whole of
      `s` when there is none: the second piece of `split(sep)` when `s`
      follows a leading `sep`. */
  function Before(s: string, sep: string): (r: string)
    requires sep != ""
    ensures |r| <= |s| && r == s[..|r|]
    ensures r == s || StartsWith(s[|r|..], sep)
    ensures forall i :: 0 <= i < |r| ==> !StartsWith(s[i..], sep)
    decreases |s|
  {
    if |s| < |sep| then s
    else if s[..|sep|] == sep then ""
    else
      var t := Before(s[1..], sep);
      assert forall i :: 1 <= i <= |s| ==> s[i..] == s[1..][i - 1..];
      [s[0]] + t
  }

  /** The release id a digest carries: what follows its `sha256:` prefix. */
  function DigestId(digest: string): (r: string)
    requires StartsWith(digest, DigestPrefix)
    ensures |r| <= |digest| - |DigestPrefix| && r == digest[|DigestPrefix|..|DigestPrefix| + |r|]
  {
    Before(digest[|DigestPrefix|..], DigestPrefix)
  }

  /** The release event and the registry agree: a `sha256:` digest whose id
      is the event's `x`, and the event's repository and version labels. */
  predicate Matches(r: Releases.Event, info: ImageInfo)
  {
    StartsWith(info.digest, DigestPrefix)
    && Releases.Tv(r.tags, "x") == Some(DigestId(info.digest))
    && Releases.Tv(r.tags, "r") == info.repo
    && Releases.Tv(r.tags, "v") == info.version
  }

  /** A release is worth upgrading to when it names an image, the registry
      knows the image and the two agree. */
  predicate Acceptable(reg: Registry, r: Releases.Event)
  {
    var u := Releases.Tv(r.tags, "u");
    u.Some? && reg.image(u.value).Ok? && Matches(r, reg.image(u.value).value)
  }

  function UriOf(r: Releases.Event): string
  {
    Releases.OrEmpty(Releases.Tv(r.tags, "u"))
  }

  // ---------------------------------------------------------------------
  // What a pass may change

  /** `t` differs from `s` only in container `k`'s upgrade flag, state and
      image, and in the state and image columns of its row. */
  ghost predicate Restarted(s: Snap, t: Snap, k: string)
    requires k in s.conts
  {
    OnlyTouches(s, t, k) && t.clients == s.clients && t.dbOrder == s.dbOrder && t.nextId == s.nextId
    && var c := s.conts[k];
    var d := t.conts[k];
    var pk := c.info.pubkey;
    d == c.(upgrading := d.upgrading, info := c.info.(state := d.info.state, docker := d.info.docker))
    && (pk in s.rows ==> pk in t.rows && t.rows == s.rows[pk := s.rows[pk].(state := t.rows[pk].state, docker := t.rows[pk].docker)])
    && (pk !in s.rows ==> t.rows == s.rows)
  }

  lemma RestartedTransitive(s: Snap, m: Snap, t: Snap, k: string)
    requires k in s.conts && Restarted(s, m, k) && Restarted(m, t, k)
    ensures Restarted(s, t, k)
  {
    OnlyTouchesTransitive(s, m, t, k);
  }

  /** Such a change keeps the table's indexes. */
  lemma RestartedKeepsTable(s: Snap, t: Snap, k: string)
    requires k in s.conts && Restarted(s, t, k) && RecordStore.TableValid(s.rows, s.dbOrder, s.nextId)
    ensures RecordStore.TableValid(t.rows, t.dbOrder, t.nextId)
  {
    var pk := s.conts[k].info.pubkey;
    if pk in s.rows {
      RecordStore.PointUpdateKeepsTable(s.rows, s.dbOrder, s.nextId, pk, t.rows[pk]);
    }
  }

  // ---------------------------------------------------------------------
  // One upgrade

  function SetUpgrading(s: Snap, k: string, flag: bool): (t: Snap)
    requires k in s.conts
    ensures Restarted(s, t, k) && t.conts[k].info == s.conts[k].info
  {
    s.(conts := s.conts[k := s.conts[k].(upgrading := flag)])
  }

  function SetDocker(s: Snap, k: string, uri: string): (t: Snap)
    requires k in s.conts
    ensures Restarted(s, t, k) && t.conts[k].upgrading == s.conts[k].upgrading
  {
    s.(conts := s.conts[k := s.conts[k].(info := s.conts[k].info.(docker := uri))])
  }

  /** A state change is one of the changes a pass may make. */
  lemma MoveToRestarts(s: Snap, k: string, st: State, o: Oracles)
    requires k in s.conts
    ensures var m := MoveTo(s, k, st, o);
      Restarted(s, m.s, k) && m.s.conts[k].upgrading == s.conts[k].upgrading
      && m.s.conts[k].info.docker == s.conts[k].info.docker
      && (m.o.Done? ==> m.s.conts[k].info.state == st)
  {
    var c := s.conts[k];
    var m := MoveTo(s, k, st, o);
    if o.change(c, st).Fail? {
      assert m.s == s;
    } else {
      assert m.s.conts == s.conts[k := c.(info := c.info.(state := st))];
      if c.info.pubkey in s.rows {
        assert m.s.rows == s.rows[c.info.pubkey := s.rows[c.info.pubkey].(state := st)];
      } else {
        assert m.s.rows == s.rows;
      }
    }
  }

  /** `upgrade` and `rollback` (the same steps): mark as upgrading, pause,
      switch the image, deploy, clear the mark. A failing step ends the
      sequence with the mark still set. */
  function Upgrade(s: Snap, k: string, uri: string, o: Oracles): (r: Step)
    requires k in s.conts
    ensures Restarted(s, r.s, k)
    ensures r.s.conts[k].info.docker == s.conts[k].info.docker || r.s.conts[k].info.docker == uri
    ensures r.o.Done? ==> (!r.s.conts[k].upgrading && r.s.conts[k].info.docker == uri
      && r.s.conts[k].info.state == RecordStore.Deployed)
    ensures r.o.Fail? ==> r.s.conts[k].upgrading
  {
    var s1 := SetUpgrading(s, k, true);
    MoveToRestarts(s1, k, RecordStore.Paused, o);
    var p := MoveTo(s1, k, RecordStore.Paused, o);
    RestartedTransitive(s, s1, p.s, k);
    if p.o.Fail? then p
    else
      var s2 := SetDocker(p.s, k, uri);
      RestartedTransitive(s, p.s, s2, k);
      MoveToRestarts(s2, k, RecordStore.Deployed, o);
      var d := MoveTo(s2, k, RecordStore.Deployed, o);
      RestartedTransitive(s, s2, d.s, k);
      if d.o.Fail? then d
      else
        var s3 := SetUpgrading(d.s, k, false);
        RestartedTransitive(s, d.s, s3, k);
        Step(s3, Done)
  }

  /** When the runtime does what it is asked and the row exists, an upgrade
      goes through. */
  lemma UpgradeGoesThrough(s: Snap, k: string, uri: string, o: Oracles)
    requires k in s.conts && s.conts[k].info.pubkey in s.rows
    requires forall c, st :: o.change(c, st) == Done
    ensures Upgrade(s, k, uri, o).o == Done
  {
    var c := s.conts[k];
    assert o.change(c.(upgrading := true), RecordStore.Paused) == Done;
    var p := MoveTo(SetUpgrading(s, k, true), k, RecordStore.Paused, o);
    var c2 := p.s.conts[k].(info := p.s.conts[k].info.(docker := uri));
    assert o.change(c2, RecordStore.Deployed) == Done;
  }

  /** The commit: the new image goes into the row; a missing row throws,
      which the surrounding handler swallows. */
  function CommitUri(s: Snap, k: string, uri: string): (t: Snap)
    requires k in s.conts
    ensures Restarted(s, t, k) && t.conts == s.conts
  {
    var pk := s.conts[k].info.pubkey;
    if pk in s.rows then s.(rows := s.rows[pk := s.rows[pk].(docker := uri)]) else s
  }

  // ---------------------------------------------------------------------
  // The candidates

  /** One candidate: upgrade to its image and, when that succeeds, commit
      the new URI to the row. */
  function TryRelease(s: Snap, k: string, r: Releases.Event, o: Oracles): (t: Snap)
    requires k in s.conts
    ensures Restarted(s, t, k)
  {
    var u := Upgrade(s, k, UriOf(r), o);
    var s1 := if u.o.Done? then CommitUri(u.s, k, UriOf(r)) else u.s;
    RestartedTransitive(s, u.s, s1, k);
    s1
  }

  /** Trying `rs[i..]` in order: unacceptable releases are skipped, an
      upgrade that goes through is committed, and the loop ends once the
      container is no longer marked as upgrading. */
  function TryReleases(s: Snap, k: string, rs: seq<Releases.Event>, i: nat, o: Oracles, reg: Registry): (t: Snap)
    requires k in s.conts && i <= |rs|
    ensures Restarted(s, t, k)
    decreases |rs| - i
  {
    if i == |rs| then s
    else if !Acceptable(reg, rs[i]) then TryReleases(s, k, rs, i + 1, o, reg)
    else
      var s1 := TryRelease(s, k, rs[i], o);
      if !s1.conts[k].upgrading then s1
      else
        var t := TryReleases(s1, k, rs, i + 1, o, reg);
        RestartedTransitive(s, s1, t, k);
        t
  }

  /** One container's turn: nothing happens to an ineligible container or
      when no release list comes back; otherwise the candidates are tried
      and a container still marked as upgrading is rolled back to the image
      it ran before (a failing rollback is swallowed too). */
  function UpgradeOne(s: Snap, k: string, o: Oracles, reg: Registry): (t: Snap)
    requires k in s.conts
    ensures Restarted(s, t, k)
  {
    var c := s.conts[k];
    if !Eligible(c) then s
    else
      match reg.releases(c.info.docker)
      case Err(_) => s
      case Ok(rs) =>
        var t := TryReleases(s, k, rs, 0, o, reg);
        if !t.conts[k].upgrading then t
        else
          var b := Upgrade(t, k, c.info.docker, o);
          RestartedTransitive(s, t, b.s, k);
          b.s
  }

  /** `upgradeMonitor`'s loop body over the containers in map order (a
      key without a container is passed over). */
  function UpgradeTick(s: Snap, keys: seq<string>, o: Oracles, reg: Registry): (t: Snap)
    ensures t.conts.Keys == s.conts.Keys && t.order == s.order && t.started == s.started
    ensures t.clients == s.clients && t.dbOrder == s.dbOrder && t.nextId == s.nextId
    decreases |keys|
  {
    if keys == [] then s
    else if keys[0] !in s.conts then UpgradeTick(s, keys[1..], o, reg)
    else
      var s1 := UpgradeOne(s, keys[0], o, reg);
      UpgradeTick(s1, keys[1..], o, reg)
  }

  // ---------------------------------------------------------------------
  // Properties of a pass

  /** An ineligible container, or one without a release list, is left
      exactly as it was. */
  lemma UpgradeOneSkips(s: Snap, k: string, o: Oracles, reg: Registry)
    requires k in s.conts
    requires !Eligible(s.conts[k]) || reg.releases(s.conts[k].info.docker).Err?
    ensures UpgradeOne(s, k, o, reg) == s
  {
  }

  /** Releases that do not check out are skipped without touching anything. */
  lemma {:induction false} NothingAcceptableChangesNothing(s: Snap, k: string, rs: seq<Releases.Event>, i: nat, o: Oracles, reg: Registry)
    requires k in s.conts && i <= |rs|
    requires forall j :: i <= j < |rs| ==> !Acceptable(reg, rs[j])
    ensures TryReleases(s, k, rs, i, o, reg) == s
    decreases |rs| - i
  {
    if i < |rs| {
      NothingAcceptableChangesNothing(s, k, rs, i + 1, o, reg);
    }
  }

  /** The first acceptable release after `i` is the first one tried. */
  lemma {:induction false} SkipsToAcceptable(s: Snap, k: string, rs: seq<Releases.Event>, i: nat, j: nat, o: Oracles, reg: Registry)
    requires k in s.conts && i <= j < |rs|
    requires forall m :: i <= m < j ==> !Acceptable(reg, rs[m])
    ensures TryReleases(s, k, rs, i, o, reg) == TryReleases(s, k, rs, j, o, reg)
    decreases j - i
  {
    if i < j {
      SkipsToAcceptable(s, k, rs, i + 1, j, o, reg);
    }
  }

  /** An acceptable release whose upgrade goes through is committed to the
      row and ends the loop: the container runs the new image, deployed and
      unmarked, and no later release is tried. */
  lemma FirstSuccessCommits(s: Snap, k: string, rs: seq<Releases.Event>, i: nat, o: Oracles, reg: Registry)
    requires k in s.conts && i < |rs| && Acceptable(reg, rs[i])
    requires Upgrade(s, k, UriOf(rs[i]), o).o == Done
    ensures var u := Upgrade(s, k, UriOf(rs[i]), o);
      TryReleases(s, k, rs, i, o, reg) == CommitUri(u.s, k, UriOf(rs[i]))
    ensures var t := TryReleases(s, k, rs, i, o, reg);
      var pk := s.conts[k].info.pubkey;
      t.conts[k].info.docker == UriOf(rs[i]) && t.conts[k].info.state == RecordStore.Deployed && !t.conts[k].upgrading
      && (pk in s.rows ==> t.rows[pk].docker == UriOf(rs[i]) && t.rows[pk].state == RecordStore.Deployed)
  {
  }

  /** A failed upgrade leaves the mark set, so the next release is tried. */
  lemma FailureTriesNext(s: Snap, k: string, rs: seq<Releases.Event>, i: nat, o: Oracles, reg: Registry)
    requires k in s.conts && i < |rs| && Acceptable(reg, rs[i])
    requires Upgrade(s, k, UriOf(rs[i]), o).o.Fail?
    ensures var u := Upgrade(s, k, UriOf(rs[i]), o);
      u.s.conts[k].upgrading && TryReleases(s, k, rs, i, o, reg) == TryReleases(u.s, k, rs, i + 1, o, reg)
  {
  }

  /** The set of images a container may end a pass with: the one it had and
      those of acceptable releases from `i` on. */
  ghost predicate VettedImage(reg: Registry, rs: seq<Releases.Event>, i: nat, before: string, now: string)
  {
    now == before || exists j :: i <= j < |rs| && Acceptable(reg, rs[j]) && now == UriOf(rs[j])
  }

  /** The candidate loop only ever switches to the image of an acceptable
      release. */
  lemma {:induction false} TryReleasesVetted(s: Snap, k: string, rs: seq<Releases.Event>, i: nat, o: Oracles, reg: Registry)
    requires k in s.conts && i <= |rs|
    ensures VettedImage(reg, rs, i, s.conts[k].info.docker, TryReleases(s, k, rs, i, o, reg).conts[k].info.docker)
    decreases |rs| - i
  {
    if i < |rs| {
      if !Acceptable(reg, rs[i]) {
        TryReleasesVetted(s, k, rs, i + 1, o, reg);
      } else {
        var u := Upgrade(s, k, UriOf(rs[i]), o);
        var s1 := if u.o.Done? then CommitUri(u.s, k, UriOf(rs[i])) else u.s;
        assert VettedImage(reg, rs, i, s.conts[k].info.docker, s1.conts[k].info.docker);
        if s1.conts[k].upgrading {
          TryReleasesVetted(s1, k, rs, i + 1, o, reg);
          var t := TryReleases(s1, k, rs, i + 1, o, reg);
          assert TryReleases(s, k, rs, i, o, reg) == t;
          if t.conts[k].info.docker != s1.conts[k].info.docker {
            var j :| i + 1 <= j < |rs| && Acceptable(reg, rs[j]) && t.conts[k].info.docker == UriOf(rs[j]);
          }
        }
      }
    }
  }

  /** A pass leaves a container running either the image it had or the
      image of an acceptable release, never one that failed the check. */
  lemma UpgradeOneVetted(s: Snap, k: string, o: Oracles, reg: Registry)
    requires k in s.conts && Eligible(s.conts[k]) && reg.releases(s.conts[k].info.docker).Ok?
    ensures VettedImage(reg, reg.releases(s.conts[k].info.docker).value, 0, s.conts[k].info.docker,
      UpgradeOne(s, k, o, reg).conts[k].info.docker)
  {
    TryReleasesVetted(s, k, reg.releases(s.conts[k].info.docker).value, 0, o, reg);
  }

  /** When every step the runtime is asked for succeeds and the row exists,
      a pass ends with the container deployed and no longer marked as
      upgrading, whether the last step was an upgrade or a rollback. */
  lemma UpgradeOneEndsClear(s: Snap, k: string, o: Oracles, reg: Registry)
    requires k in s.conts && Eligible(s.conts[k]) && s.conts[k].info.pubkey in s.rows
    requires !s.conts[k].upgrading || reg.releases(s.conts[k].info.docker).Ok?
    requires forall c, st :: o.change(c, st) == Done
    ensures !UpgradeOne(s, k, o, reg).conts[k].upgrading
    ensures UpgradeOne(s, k, o, reg).conts[k].info.state == RecordStore.Deployed
  {
    var c := s.conts[k];
    if reg.releases(c.info.docker).Ok? {
      var rs := reg.releases(c.info.docker).value;
      var t := TryReleases(s, k, rs, 0, o, reg);
      TryReleasesEndsDeployed(s, k, rs, 0, o, reg);
      if t.conts[k].upgrading {
        UpgradeGoesThrough(t, k, c.info.docker, o);
      }
    }
  }

  /** Under a working runtime the candidate loop keeps the container
      deployed. */
  lemma {:induction false} TryReleasesEndsDeployed(s: Snap, k: string, rs: seq<Releases.Event>, i: nat, o: Oracles, reg: Registry)
    requires k in s.conts && i <= |rs| && s.conts[k].info.pubkey in s.rows
    requires s.conts[k].info.state == RecordStore.Deployed
    requires forall c, st :: o.change(c, st) == Done
    ensures TryReleases(s, k, rs, i, o, reg).conts[k].info.state == RecordStore.Deployed
    decreases |rs| - i
  {
    if i < |rs| {
      if !Acceptable(reg, rs[i]) {
        TryReleasesEndsDeployed(s, k, rs, i + 1, o, reg);
      } else {
        UpgradeGoesThrough(s, k, UriOf(rs[i]), o);
      }
    }
  }

  /** Containers that are not eligible at the start of a pass are left
      exactly as they were. */
  lemma {:induction false} UpgradeTickLeavesIneligible(s: Snap, keys: seq<string>, o: Oracles, reg: Registry, k: string)
    requires k in s.conts && !Eligible(s.conts[k])
    ensures UpgradeTick(s, keys, o, reg).conts[k] == s.conts[k]
    decreases |keys|
  {
    if keys != [] && keys[0] !in s.conts {
      UpgradeTickLeavesIneligible(s, keys[1..], o, reg, k);
    } else if keys != [] {
      var s1 := UpgradeOne(s, keys[0], o, reg);
      if keys[0] == k {
        UpgradeOneSkips(s, k, o, reg);
      }
      assert s1.conts[k] == s.conts[k];
      UpgradeTickLeavesIneligible(s1, keys[1..], o, reg, k);
    }
  }

  /** A pass keeps the table's indexes. */
  lemma {:induction false} UpgradeTickKeepsTable(s: Snap, keys: seq<string>, o: Oracles, reg: Registry)
    requires RecordStore.TableValid(s.rows, s.dbOrder, s.nextId)
    ensures var t := UpgradeTick(s, keys, o, reg); RecordStore.TableValid(t.rows, t.dbOrder, t.nextId)
    decreases |keys|
  {
    if keys != [] && keys[0] !in s.conts {
      UpgradeTickKeepsTable(s, keys[1..], o, reg);
    } else if keys != [] {
      var s1 := UpgradeOne(s, keys[0], o, reg);
      RestartedKeepsTable(s, s1, keys[0]);
      UpgradeTickKeepsTable(s1, keys[1..], o, reg);
    }
  }
}
