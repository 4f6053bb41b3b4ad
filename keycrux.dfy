/** The key-store client: it finds the key-store services announced on the
    relays (one per service key, the newest valid announcement), reads the
    age secret key from its file, stores it with every service, counts the
    services that answered "ok", and repeats slower once more than one
    service holds the key. Relays, attestation validation, the file system
    and the services' replies are oracles. */
module Keycrux {
  import opened Common
  import Consts
  import Releases

  /** A service announcement: its author, creation time and tags. */
  datatype Announcement = Announcement(id: string, pubkey: string, createdAt: int, tags: seq<seq<string>>)

  /** `validateKeycrux`: the validator's verdict, and `false` when it throws. */
  function Validate(check: Announcement -> Result<bool>, e: Announcement): (r: bool)
    ensures r <==> check(e) == Ok(true)
    ensures check(e).Err? ==> !r
  {
    match check(e)
    case Ok(b) => b
    case Err(_) => false
  }

  // ---------------------------------------------------------------------
  // Finding the services

  /** The accepted announcements so far, by pubkey, with the pubkeys in
      the order they were first accepted (a JavaScript `Map` iterates in
      first-insertion order, and `set` on a present key keeps its place). */
  datatype Accepted = Accepted(valid: map<string, Announcement>, keys: seq<string>)

  ghost predicate Wellformed(a: Accepted)
  {
    (forall i, j :: 0 <= i < j < |a.keys| ==> a.keys[i] != a.keys[j])
    && (forall k :: k in a.valid <==> k in a.keys)
    && (forall k :: k in a.valid ==> a.valid[k].pubkey == k)
  }

  /** One candidate: older than the accepted announcement of its pubkey,
      it is skipped without validation; otherwise it replaces (or adds)
      the entry if it validates. */
  function Consider(a: Accepted, s: Announcement, check: Announcement -> Result<bool>): Accepted
  {
    if s.pubkey in a.valid && a.valid[s.pubkey].createdAt > s.createdAt then a
    else if !Validate(check, s) then a
    else if s.pubkey in a.valid then Accepted(a.valid[s.pubkey := s], a.keys)
    else Accepted(a.valid[s.pubkey := s], a.keys + [s.pubkey])
  }

  /** The loop of `fetchKeycruxServices` over the found announcements. */
  function Dedup(services: seq<Announcement>, check: Announcement -> Result<bool>): Accepted
  {
    if services == [] then Accepted(map[], [])
    else Consider(Dedup(services[..|services| - 1], check), services[|services| - 1], check)
  }

  /** `[...valid.values()]`. */
  function Values(a: Accepted): (r: seq<Announcement>)
    requires forall k :: k in a.keys ==> k in a.valid
    ensures |r| == |a.keys|
    ensures forall i :: 0 <= i < |r| ==> r[i] == a.valid[a.keys[i]]
  {
    seq(|a.keys|, i requires 0 <= i < |a.keys| => a.valid[a.keys[i]])
  }

  /** What the accepted map holds after a prefix of the candidates: every
      entry is a validated candidate of its pubkey, every pubkey with a
      valid candidate has an entry, and no valid candidate of a pubkey is
      newer than its entry. */
  ghost predicate Summarizes(a: Accepted, services: seq<Announcement>, check: Announcement -> Result<bool>)
  {
    Wellformed(a)
    && (forall k :: k in a.valid ==> a.valid[k] in services && Validate(check, a.valid[k]))
    && (forall s :: s in services && Validate(check, s) ==> s.pubkey in a.valid)
    && (forall s :: s in services && Validate(check, s) && s.pubkey in a.valid ==>
          s.createdAt <= a.valid[s.pubkey].createdAt)
  }

  lemma {:induction false} DedupSummarizes(services: seq<Announcement>, check: Announcement -> Result<bool>)
    ensures Summarizes(Dedup(services, check), services, check)
    decreases |services|
  {
    if services != [] {
      var n := |services| - 1;
      var p := services[..n];
      var x := services[n];
      DedupSummarizes(p, check);
      var a := Dedup(p, check);
      var b := Consider(a, x, check);
      assert Dedup(services, check) == b;
      assert services == p + [x];
      assert forall s :: s in services <==> s in p || s == x;
      if x.pubkey in a.valid && a.valid[x.pubkey].createdAt > x.createdAt {
        assert b == a;
      } else if !Validate(check, x) {
        assert b == a;
      } else if x.pubkey in a.valid {
        assert b.keys == a.keys;
      } else {
        assert Wellformed(b) by {
          forall i, j | 0 <= i < j < |b.keys| ensures b.keys[i] != b.keys[j] {
            if j == |a.keys| {
              assert b.keys[j] == x.pubkey && b.keys[i] == a.keys[i];
            }
          }
          forall k ensures k in b.valid <==> k in b.keys {
            assert k in b.keys <==> k in a.keys || k == x.pubkey;
          }
        }
      }
    }
  }

  /** `fetchKeycruxServices` after the relay query. */
  function FetchServices(services: seq<Announcement>, check: Announcement -> Result<bool>): (r: seq<Announcement>)
  {
    if services == [] then []
    else
      DedupSummarizes(services, check);
      Values(Dedup(services, check))
  }

  /** No two services share a pubkey. */
  lemma FetchOnePerPubkey(services: seq<Announcement>, check: Announcement -> Result<bool>)
    ensures var r := FetchServices(services, check);
      forall i, j :: 0 <= i < j < |r| ==> r[i].pubkey != r[j].pubkey
  {
    if services != [] {
      DedupSummarizes(services, check);
    }
  }

  /** The services found are validated announcements, and every pubkey
      with a valid announcement is among them with its newest one. */
  lemma FetchNewestValid(services: seq<Announcement>, check: Announcement -> Result<bool>)
    ensures var r := FetchServices(services, check);
      (forall x :: x in r ==> x in services && Validate(check, x))
      && (forall s :: s in services && Validate(check, s) ==>
            exists x :: x in r && x.pubkey == s.pubkey && s.createdAt <= x.createdAt)
  {
    if services != [] {
      DedupSummarizes(services, check);
      var a := Dedup(services, check);
      var r := FetchServices(services, check);
      forall s | s in services && Validate(check, s)
        ensures exists x :: x in r && x.pubkey == s.pubkey && s.createdAt <= x.createdAt
      {
        var i :| 0 <= i < |a.keys| && a.keys[i] == s.pubkey;
        assert r[i] == a.valid[s.pubkey];
      }
    }
  }

  /** A candidate older than the accepted one is skipped whatever the
      validator would say of it. */
  lemma OlderSkippedUnvalidated(a: Accepted, s: Announcement, check: Announcement -> Result<bool>, check2: Announcement -> Result<bool>)
    requires s.pubkey in a.valid && a.valid[s.pubkey].createdAt > s.createdAt
    ensures Consider(a, s, check) == a == Consider(a, s, check2)
  {
  }

  method FetchKeycruxServices(services: seq<Announcement>, check: Announcement -> Result<bool>) returns (r: seq<Announcement>)
    ensures r == FetchServices(services, check)
  {
    if |services| == 0 {
      return [];
    }
    var valid: map<string, Announcement> := map[];
    var keys: seq<string> := [];
    var i := 0;
    while i < |services|
      invariant 0 <= i <= |services|
      invariant Accepted(valid, keys) == Dedup(services[..i], check)
    {
      var s := services[i];
      assert services[..i + 1][..i] == services[..i];
      if s.pubkey in valid && valid[s.pubkey].createdAt > s.createdAt {
      } else if Validate(check, s) {
        if s.pubkey !in valid {
          keys := keys + [s.pubkey];
        }
        valid := valid[s.pubkey := s];
      }
      i := i + 1;
    }
    assert services[..i] == services;
    DedupSummarizes(services, check);
    r := Values(Accepted(valid, keys));
  }

  // ---------------------------------------------------------------------
  // The secret key

  const KeyPrefix := "AGE-SECRET-KEY-"

  /** `lines.map(trim).find(startsWith(KeyPrefix))`. */
  function FirstKeyLine(lines: seq<string>): (r: Option<string>)
    ensures r.Some? ==> (StartsWith(r.value, KeyPrefix)
      && exists i :: 0 <= i < |lines| && Trim(lines[i]) == r.value
                     && forall j :: 0 <= j < i ==> !StartsWith(Trim(lines[j]), KeyPrefix))
    ensures r.None? <==> forall i :: 0 <= i < |lines| ==> !StartsWith(Trim(lines[i]), KeyPrefix)
  {
    if lines == [] then None
    else if StartsWith(Trim(lines[0]), KeyPrefix) then Some(Trim(lines[0]))
    else
      var r := FirstKeyLine(lines[1..]);
      assert forall i :: 1 <= i < |lines| ==> lines[1..][i - 1] == lines[i];
      r
  }

  /** The key `uploadKeycrux` sends, or the message it throws. */
  function SecretKey(file: Result<string>): (r: Result<string>)
    ensures file.Err? ==> r == file
    ensures file == Ok("") ==> r == Err("No age.key")
    ensures r.Ok? ==> StartsWith(r.value, KeyPrefix)
    ensures file.Ok? && file.value != "" ==>
      (r == Err("No key in age.key") <==> FirstKeyLine(Split(file.value, '\n')).None?)
  {
    match file
    case Err(m) => Err(m)
    case Ok(text) =>
      if text == "" then Err("No age.key")
      else
        match FirstKeyLine(Split(text, '\n'))
        case None => Err("No key in age.key")
        case Some(line) => Ok(line)
  }

  /** A file whose first line is the key yields that key. */
  lemma KeyOnFirstLine(key: string, rest: string)
    requires StartsWith(key, KeyPrefix) && !Contains(key, '\n')
    requires forall k :: 0 <= k < |key| ==> !IsSpace(key[k])
    ensures SecretKey(Ok(key + "\n" + rest)) == Ok(key)
  {
    var text := key + "\n" + rest;
    SplitPrefix(key, rest);
    TrimWithoutSpace(key);
  }

  /** Splitting `key \n rest` at the newlines gives `key` first. */
  lemma {:induction false} SplitPrefix(key: string, rest: string)
    requires !Contains(key, '\n')
    ensures var ls := Split(key + "\n" + rest, '\n'); ls[0] == key
  {
    if key != [] {
      assert !Contains(key[1..], '\n') by {
        forall i | 0 <= i < |key[1..]| ensures key[1..][i] != '\n' {
          assert key[1..][i] == key[i + 1];
        }
      }
      SplitPrefix(key[1..], rest);
      assert (key + "\n" + rest)[1..] == key[1..] + "\n" + rest;
      assert key[0] != '\n' by { assert key[0] == key[0]; }
    } else {
      assert (key + "\n" + rest)[1..] == rest;
    }
  }

  // ---------------------------------------------------------------------
  // Storing the key

  /** The attestation the client presents: its base64 text and PCR0. */
  datatype Attested = Attested(base64: string, pcr0: seq<byte>)

  datatype Policy = Policy(signerPubkeys: seq<string>)

  datatype Input = Input(ref: string, releaseSignatures: Option<seq<Releases.Event>>)

  datatype SetParams = SetParams(attestation: string, data: string, input: Input, policyRef: string,
                                 releasePubkeys: Option<seq<string>>)

  datatype GetParams = GetParams(attestation: string, input: Input)

  /** `pcrs.get(0).find(c => c !== 0)`. */
  function FirstNonZero(bs: seq<byte>): (r: Option<byte>)
    ensures r.Some? <==> exists i :: 0 <= i < |bs| && bs[i] != 0
    ensures r.Some? ==> r.value != 0
  {
    if bs == [] then None
    else if bs[0] != 0 then Some(bs[0])
    else
      var r := FirstNonZero(bs[1..]);
      assert forall i :: 1 <= i < |bs| ==> bs[1..][i - 1] == bs[i];
      r
  }

  /** A production enclave: a debug enclave's PCR0 is all zeros. */
  predicate NotDebug(att: Attested)
  {
    FirstNonZero(att.pcr0).Some?
  }

  /** The parameters of `set`: the release signatures and the release
      signers are added only outside a debug enclave. */
  function SetParamsFor(data: string, att: Attested, policy: Option<Policy>, releases: Option<seq<Releases.Event>>): (p: SetParams)
    ensures p.data == data && p.attestation == att.base64 && p.input.ref == Consts.Repo && p.policyRef == Consts.Repo
    ensures p.input.releaseSignatures.Some? <==> releases.Some? && exists i :: 0 <= i < |att.pcr0| && att.pcr0[i] != 0
    ensures p.input.releaseSignatures.Some? ==> p.input.releaseSignatures == releases
    ensures p.releasePubkeys.Some? <==> policy.Some? && exists i :: 0 <= i < |att.pcr0| && att.pcr0[i] != 0
    ensures p.releasePubkeys.Some? ==> p.releasePubkeys.value == policy.value.signerPubkeys
  {
    var notDebug := NotDebug(att);
    SetParams(att.base64, data,
      Input(Consts.Repo, if releases.Some? && notDebug then releases else None),
      Consts.Repo,
      if policy.Some? && notDebug then Some(policy.value.signerPubkeys) else None)
  }

  /** The parameters of `get`. */
  function GetParamsFor(att: Attested, releases: Option<seq<Releases.Event>>): (p: GetParams)
    ensures p.attestation == att.base64 && p.input.ref == Consts.Repo
    ensures p.input.releaseSignatures.Some? <==> releases.Some? && exists i :: 0 <= i < |att.pcr0| && att.pcr0[i] != 0
    ensures p.input.releaseSignatures.Some? ==> p.input.releaseSignatures == releases
  {
    GetParams(att.base64, Input(Consts.Repo, if releases.Some? && NotDebug(att) then releases else None))
  }

  /** `set`'s answer: true exactly for the reply "ok"; a failed send throws. */
  function SetResult(reply: Result<string>): (r: Result<bool>)
    ensures r.Err? <==> reply.Err?
    ensures r.Ok? ==> (r.value <==> reply.value == "ok")
  {
    match reply
    case Err(m) => Err(m)
    case Ok(text) => Ok(text == "ok")
  }

  /** The first `relay` tag's value of an announcement, if any. */
  function RelayTag(tags: seq<seq<string>>): (r: Option<string>)
    ensures r.Some? ==> exists i :: 0 <= i < |tags| && |tags[i]| > 1 && tags[i][0] == "relay" && tags[i][1] == r.value
    ensures r.None? <==> forall i :: 0 <= i < |tags| ==> !(|tags[i]| > 1 && tags[i][0] == "relay")
  {
    if tags == [] then None
    else if |tags[0]| > 1 && tags[0][0] == "relay" then Some(tags[0][1])
    else
      var r := RelayTag(tags[1..]);
      assert forall i :: 1 <= i < |tags| ==> tags[1..][i - 1] == tags[i];
      r
  }

  /** The relay a service is reached on: its announced relay, or the
      default relay when none (or an empty one) is announced. */
  function ServiceRelay(s: Announcement): (r: string)
    ensures r != ""
    ensures RelayTag(s.tags).Some? && RelayTag(s.tags).value != "" ==> r == RelayTag(s.tags).value
    ensures RelayTag(s.tags).None? || RelayTag(s.tags).value == "" ==> r == Consts.EnclavedRelay
  {
    match RelayTag(s.tags)
    case Some(u) => if u != "" then u else Consts.EnclavedRelay
    case None => Consts.EnclavedRelay
  }

  /** The outside world of an upload: the attestation, the release policy
      and releases passed in, and each service's reply to `set` on a relay
      (or the message of the exception sending failed with). */
  datatype Uploader = Uploader(att: Attested, policy: Option<Policy>, releases: Option<seq<Releases.Event>>,
                               send: (string, string, SetParams) -> Result<string>)

  /** Whether this service stored the key. */
  predicate Stores(s: Announcement, data: string, u: Uploader)
  {
    SetResult(u.send(ServiceRelay(s), s.pubkey, SetParamsFor(data, u.att, u.policy, u.releases))) == Ok(true)
  }

  /** The number of services that stored the key. */
  function Stored(ss: seq<Announcement>, data: string, u: Uploader): (n: nat)
    ensures n <= |ss|
  {
    if ss == [] then 0
    else Stored(ss[..|ss| - 1], data, u) + (if Stores(ss[|ss| - 1], data, u) then 1 else 0)
  }

  /** Every service stored the key exactly when the count is the number of services. */
  lemma {:induction false} StoredAll(ss: seq<Announcement>, data: string, u: Uploader)
    ensures Stored(ss, data, u) == |ss| <==> forall i :: 0 <= i < |ss| ==> Stores(ss[i], data, u)
  {
    if ss != [] {
      var p := ss[..|ss| - 1];
      StoredAll(p, data, u);
      assert forall i :: 0 <= i < |p| ==> p[i] == ss[i];
    }
  }

  /** No service stored the key exactly when the count is zero; failed
      and refused services alike count for nothing. */
  lemma {:induction false} StoredNone(ss: seq<Announcement>, data: string, u: Uploader)
    ensures Stored(ss, data, u) == 0 <==> forall i :: 0 <= i < |ss| ==> !Stores(ss[i], data, u)
  {
    if ss != [] {
      var p := ss[..|ss| - 1];
      StoredNone(p, data, u);
      assert forall i :: 0 <= i < |p| ==> p[i] == ss[i];
    }
  }

  /** `uploadKeycrux`: the key of the file, stored with every service found. */
  function Upload(file: Result<string>, services: seq<Announcement>, check: Announcement -> Result<bool>, u: Uploader): (r: Result<nat>)
    ensures SecretKey(file).Err? ==> r == Err(SecretKey(file).msg)
    ensures r.Ok? ==> r.value == Stored(FetchServices(services, check), SecretKey(file).value, u)
    ensures r.Ok? ==> r.value <= |FetchServices(services, check)|
  {
    match SecretKey(file)
    case Err(m) => Err(m)
    case Ok(data) => Ok(Stored(FetchServices(services, check), data, u))
  }

  method UploadKeycrux(file: Result<string>, services: seq<Announcement>, check: Announcement -> Result<bool>, u: Uploader)
    returns (r: Result<nat>)
    ensures r == Upload(file, services, check, u)
  {
    var key := SecretKey(file);
    if key.Err? {
      return Err(key.msg);
    }
    var found := FetchKeycruxServices(services, check);
    var count := CountStored(found, key.value, u);
    r := Ok(count);
  }

  /** The counting loop of `uploadKeycrux`; a service that fails is passed over. */
  method CountStored(found: seq<Announcement>, data: string, u: Uploader) returns (count: nat)
    ensures count == Stored(found, data, u)
  {
    count := 0;
    var i := 0;
    while i < |found|
      invariant 0 <= i <= |found|
      invariant count == Stored(found[..i], data, u)
    {
      var s := found[i];
      var relay := ServiceRelay(s);
      var answer := SetResult(u.send(relay, s.pubkey, SetParamsFor(data, u.att, u.policy, u.releases)));
      assert found[..i + 1][..i] == found[..i];
      if answer == Ok(true) {
        count := count + 1;
      }
      i := i + 1;
    }
    assert found[..i] == found;
  }

  // ---------------------------------------------------------------------
  // The upload loop

  /** The wait after an upload round. */
  function Pause(count: int): (ms: int)
    ensures ms == 600000 || ms == 60000
    ensures ms == 600000 <==> count > 1
  {
    if count > 1 then 600000 else 60000
  }

  /** `startKeycrux` over the rounds observed: each successful upload is
      followed by its pause; the first failed upload ends the loop with its
      message. */
  method StartKeycrux(rounds: seq<Result<nat>>) returns (pauses: seq<int>, stopped: Option<string>)
    ensures |pauses| <= |rounds|
    ensures forall i :: 0 <= i < |pauses| ==> rounds[i].Ok? && pauses[i] == Pause(rounds[i].value)
    ensures |pauses| < |rounds| ==> rounds[|pauses|].Err? && stopped == Some(rounds[|pauses|].msg)
    ensures |pauses| == |rounds| ==> stopped.None?
  {
    pauses := [];
    var i := 0;
    while i < |rounds|
      invariant 0 <= i <= |rounds| && |pauses| == i
      invariant forall j :: 0 <= j < i ==> rounds[j].Ok? && pauses[j] == Pause(rounds[j].value)
    {
      match rounds[i]
      case Err(m) =>
        return pauses, Some(m);
      case Ok(count) =>
        pauses := pauses + [Pause(count)];
      i := i + 1;
    }
    stopped := None;
  }
}
