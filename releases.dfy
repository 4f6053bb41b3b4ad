/** Release discovery and the certificate event templates: the dotted
    version comparison, the selection of signed releases of the configured
    repository newer than the running version, ordered newest first, and
    the tag layout of the root, container and app certificates. */
module Releases {
  import opened Common
  import Consts
  import RecordStore

  /** A Nostr event as the release logic sees it. `wellFormed` and
      `verified` stand for `validateEvent` and `verifyEvent`. */
  datatype Event = Event(
    id: string,
    pubkey: string,
    kind: int,
    createdAt: int,
    content: string,
    tags: seq<seq<string>>,
    wellFormed: bool,
    verified: bool)

  /** The two event kinds of a release and of a release signature. */
  datatype ReleaseKinds = ReleaseKinds(release: int, signature: int)

  /** `tv(e, name)`: the value of the first tag named `name` that has one. */
  function Tv(tags: seq<seq<string>>, name: string): (r: Option<string>)
    ensures r.None? <==> forall i :: 0 <= i < |tags| ==> !(|tags[i]| > 1 && tags[i][0] == name)
    ensures r.Some? ==> exists i :: 0 <= i < |tags| && |tags[i]| > 1 && tags[i][0] == name && tags[i][1] == r.value
  {
    if tags == [] then None
    else if |tags[0]| > 1 && tags[0][0] == name then Some(tags[0][1])
    else
      var r := Tv(tags[1..], name);
      assert forall i :: 1 <= i < |tags| ==> tags[i] == tags[1..][i - 1];
      r
  }

  /** `!!x` of an optional string. */
  predicate Truthy(o: Option<string>)
  {
    o.Some? && o.value != ""
  }

  function OrEmpty(o: Option<string>): string
  {
    if o.Some? then o.value else ""
  }

  // ---------------------------------------------------------------------
  // Version comparison

  /** `Number(fragment)`: the empty or blank fragment is 0, an optionally
      signed run of decimal digits is its value, anything else is NaN
      (`None`). */
  function NumberValue(s: string): (r: Option<int>)
    ensures Trim(s) == "" ==> r == Some(0)
    ensures s != "" && AllDigits(s) ==> r == Some(DigitsValue(s))
    ensures r.Some? ==>
      (Trim(s) == "" || AllDigits(Trim(s))
       || (|Trim(s)| > 1 && (Trim(s)[0] == '+' || Trim(s)[0] == '-') && AllDigits(Trim(s)[1..])))
  {
    TrimOfDigits(s);
    var t := Trim(s);
    if t == "" then Some(0)
    else if AllDigits(t) then Some(DigitsValue(t))
    else if |t| > 1 && (t[0] == '+' || t[0] == '-') && AllDigits(t[1..]) then
      var n: int := DigitsValue(t[1..]);
      Some(if t[0] == '-' then -n else n)
    else None
  }

  lemma TrimOfDigits(s: string)
    ensures AllDigits(s) ==> Trim(s) == s
  {
    if AllDigits(s) {
      assert s != [] ==> !IsSpace(s[0]) && !IsSpace(s[|s| - 1]);
      assert TrimStart(s) == s;
    }
  }

  /** `n1 === n0`: NaN equals nothing, itself included. */
  predicate Same(a: Option<int>, b: Option<int>)
  {
    a.Some? && b.Some? && a.value == b.value
  }

  /** `n1 > n0`: false whenever either side is NaN. */
  predicate Greater(a: Option<int>, b: Option<int>)
  {
    a.Some? && b.Some? && a.value > b.value
  }

  function Fragments(v: string): (f: seq<Option<int>>)
    ensures |f| == |Split(v, '.')| && |f| >= 1
    ensures forall i :: 0 <= i < |f| ==> f[i] == NumberValue(Split(v, '.')[i])
  {
    var parts := Split(v, '.');
    seq(|parts|, i requires 0 <= i < |parts| => NumberValue(parts[i]))
  }

  /** The loop of `isNewVersion` over the fragment values. */
  function NewerFragments(f1: seq<Option<int>>, f0: seq<Option<int>>): bool
  {
    if f1 == [] then false
    else if f0 == [] then true
    else if Same(f1[0], f0[0]) then NewerFragments(f1[1..], f0[1..])
    else Greater(f1[0], f0[0])
  }

  /** `isNewVersion(v1, v0)`: is `v1` newer than `v0`? */
  predicate IsNewVersion(v1: string, v0: string)
  {
    NewerFragments(Fragments(v1), Fragments(v0))
  }

  lemma {:induction false} NewerFragmentsIrreflexive(f: seq<Option<int>>)
    ensures !NewerFragments(f, f)
  {
    if f != [] && Same(f[0], f[0]) {
      NewerFragmentsIrreflexive(f[1..]);
    }
  }

  /** No version is newer than itself, whatever its text. */
  lemma IsNewVersionIrreflexive(v: string)
    ensures !IsNewVersion(v, v)
  {
    NewerFragmentsIrreflexive(Fragments(v));
  }

  lemma {:induction false} NewerFragmentsAsymmetric(a: seq<Option<int>>, b: seq<Option<int>>)
    ensures !(NewerFragments(a, b) && NewerFragments(b, a))
  {
    if a != [] && b != [] && Same(a[0], b[0]) {
      NewerFragmentsAsymmetric(a[1..], b[1..]);
    }
  }

  /** Two versions are never each newer than the other. */
  lemma IsNewVersionAsymmetric(a: string, b: string)
    ensures !(IsNewVersion(a, b) && IsNewVersion(b, a))
  {
    NewerFragmentsAsymmetric(Fragments(a), Fragments(b));
  }

  lemma {:induction false} NewerFragmentsTransitive(a: seq<Option<int>>, b: seq<Option<int>>, c: seq<Option<int>>)
    requires NewerFragments(a, b) && NewerFragments(b, c)
    ensures NewerFragments(a, c)
  {
    if c != [] && Same(a[0], b[0]) && Same(b[0], c[0]) {
      NewerFragmentsTransitive(a[1..], b[1..], c[1..]);
    }
  }

  lemma IsNewVersionTransitive(a: string, b: string, c: string)
    requires IsNewVersion(a, b) && IsNewVersion(b, c)
    ensures IsNewVersion(a, c)
  {
    NewerFragmentsTransitive(Fragments(a), Fragments(b), Fragments(c));
  }

  /** The first fragment pair that is not equal decides the comparison. */
  lemma {:induction false} FirstDifferenceDecides(f1: seq<Option<int>>, f0: seq<Option<int>>, i: nat)
    requires i < |f1| && i < |f0|
    requires forall k :: 0 <= k < i ==> Same(f1[k], f0[k])
    requires !Same(f1[i], f0[i])
    ensures NewerFragments(f1, f0) == Greater(f1[i], f0[i])
  {
    if i > 0 {
      FirstDifferenceDecides(f1[1..], f0[1..], i - 1);
    }
  }

  /** With all common fragments equal, the version with more fragments is newer. */
  lemma {:induction false} EqualPrefixLongerIsNewer(f1: seq<Option<int>>, f0: seq<Option<int>>)
    requires forall k :: 0 <= k < |f1| && k < |f0| ==> Same(f1[k], f0[k])
    ensures NewerFragments(f1, f0) == (|f1| > |f0|)
  {
    if f1 != [] && f0 != [] {
      EqualPrefixLongerIsNewer(f1[1..], f0[1..]);
    }
  }

  predicate Numeric(f: seq<Option<int>>)
  {
    forall k :: 0 <= k < |f| ==> f[k].Some?
  }

  lemma {:induction false} NewerFragmentsTotal(a: seq<Option<int>>, b: seq<Option<int>>)
    requires Numeric(a) && Numeric(b) && a != b
    ensures NewerFragments(a, b) || NewerFragments(b, a)
  {
    if a != [] && b != [] && Same(a[0], b[0]) {
      assert a[0] == b[0];
      assert a == [a[0]] + a[1..] && b == [b[0]] + b[1..];
      NewerFragmentsTotal(a[1..], b[1..]);
    }
  }

  /** Of two versions whose fragments are all numbers and differ, one is newer. */
  lemma NumericVersionsComparable(a: string, b: string)
    requires Numeric(Fragments(a)) && Numeric(Fragments(b)) && Fragments(a) != Fragments(b)
    ensures IsNewVersion(a, b) || IsNewVersion(b, a)
  {
    NewerFragmentsTotal(Fragments(a), Fragments(b));
  }

  /** One step of `split`: a separator opens a new piece, any other
      character joins the first piece. */
  lemma SplitStep(c: char, t: string, sep: char)
    ensures Split([c] + t, sep) ==
      if c == sep then [""] + Split(t, sep) else [[c] + Split(t, sep)[0]] + Split(t, sep)[1..]
  {
    assert ([c] + t)[0] == c && ([c] + t)[1..] == t;
  }

  /** The dotted fragments of `a.b.c` for single-character `a` and `b`. */
  lemma SplitThree(a: char, b: char, c: string)
    requires a != '.' && b != '.' && !Contains(c, '.')
    ensures Split([a, '.', b, '.'] + c, '.') == [[a], [b], c]
  {
    SplitWithoutSep(c, '.');
    SplitStep('.', c, '.');
    assert Split(['.'] + c, '.') == ["", c];
    SplitStep(b, ['.'] + c, '.');
    assert [b] + "" == [b];
    assert Split([b] + (['.'] + c), '.') == [[b], c];
    SplitStep('.', [b] + (['.'] + c), '.');
    assert Split(['.'] + ([b] + (['.'] + c)), '.') == ["", [b], c];
    SplitStep(a, ['.'] + ([b] + (['.'] + c)), '.');
    assert [a] + "" == [a];
    assert [a] + (['.'] + ([b] + (['.'] + c))) == [a, '.', b, '.'] + c;
  }

  lemma FragmentsThree(a: char, b: char, c: string)
    requires a != '.' && b != '.' && !Contains(c, '.')
    ensures Fragments([a, '.', b, '.'] + c) == [NumberValue([a]), NumberValue([b]), NumberValue(c)]
  {
    SplitThree(a, b, c);
  }

  /** The fragments of three concrete versions. */
  lemma ExampleFragments()
    ensures Fragments("1.3.1") == [Some(1), Some(3), Some(1)]
    ensures Fragments("1.3.0") == [Some(1), Some(3), Some(0)]
    ensures Fragments("1.3.0-rc1") == [Some(1), Some(3), None]
  {
    DigitNumber('0');
    DigitNumber('1');
    DigitNumber('3');
    NotNumber();
    assert "1.3.1" == ['1', '.', '3', '.'] + "1";
    FragmentsThree('1', '3', "1");
    assert "1.3.0" == ['1', '.', '3', '.'] + "0";
    FragmentsThree('1', '3', "0");
    assert "1.3.0-rc1" == ['1', '.', '3', '.'] + "0-rc1";
    assert !Contains("0-rc1", '.');
    FragmentsThree('1', '3', "0-rc1");
  }

  lemma NotNumber()
    ensures NumberValue("0-rc1") == None
  {
    assert TrimStart("0-rc1") == "0-rc1";
    assert TrimEnd("0-rc1") == "0-rc1";
    assert !IsDigit("0-rc1"[1]);
  }

  lemma DigitNumber(c: char)
    requires '0' <= c <= '9'
    ensures NumberValue([c]) == Some(c as int - '0' as int)
  {
    TrimOfDigits([c]);
    assert AllDigits([c]);
    assert DigitsValue([c]) == c as int - '0' as int;
  }

  /** A fragment that is not a number makes the version order partial in
      a way that is not transitive: "1.3.1" is newer than "1.3.0", while
      "1.3.0-rc1" compares with neither of them, since `Number("0-rc1")`
      is NaN. */
  lemma NaNFragmentIncomparable()
    ensures IsNewVersion("1.3.1", "1.3.0")
    ensures !IsNewVersion("1.3.0-rc1", "1.3.0") && !IsNewVersion("1.3.0", "1.3.0-rc1")
    ensures !IsNewVersion("1.3.0-rc1", "1.3.1") && !IsNewVersion("1.3.1", "1.3.0-rc1")
  {
    ExampleFragments();
    var n1: seq<Option<int>> := [Some(1), Some(3), Some(1)];
    var n0: seq<Option<int>> := [Some(1), Some(3), Some(0)];
    var rc: seq<Option<int>> := [Some(1), Some(3), None];
    assert n1[1..][1..] == [Some(1)] && n0[1..][1..] == [Some(0)] && rc[1..][1..] == [None];
    assert NewerFragments(n1, n0);
    assert !NewerFragments(rc, n0) && !NewerFragments(n0, rc);
    assert !NewerFragments(rc, n1) && !NewerFragments(n1, rc);
  }

  // ---------------------------------------------------------------------
  // Release selection

  /** The filter applied to fetched events: a release of this repository by
      a listed signer, with an image digest and a URL, newer than `version`. */
  predicate IsCandidate(e: Event, kinds: ReleaseKinds, signers: seq<string>, repo: string, version: string)
  {
    e.kind == kinds.release
    && e.pubkey in signers
    && Tv(e.tags, "r") == Some(repo)
    && Truthy(Tv(e.tags, "x"))
    && Truthy(Tv(e.tags, "u"))
    && IsNewVersion(OrEmpty(Tv(e.tags, "v")), version)
  }

  function NewReleases(events: seq<Event>, kinds: ReleaseKinds, signers: seq<string>, repo: string, version: string): (r: seq<Event>)
    ensures forall e :: e in r <==> e in events && IsCandidate(e, kinds, signers, repo, version)
  {
    Filter(events, e => IsCandidate(e, kinds, signers, repo, version))
  }

  predicate IsProd(tags: seq<seq<string>>)
  {
    exists i :: 0 <= i < |tags| && |tags[i]| > 1 && tags[i][0] == "t" && tags[i][1] == "prod"
  }

  /** The contents of the `release` tags, in order. */
  function SigTags(tags: seq<seq<string>>): (r: seq<string>)
    ensures |r| <= |tags|
  {
    if tags == [] then []
    else
      var last := tags[|tags| - 1];
      SigTags(tags[..|tags| - 1]) + (if |last| > 1 && last[0] == "release" then [last[1]] else [])
  }

  /** A signature event vouching for the release with these `r`, `x`, `v`
      tags and production flag. */
  predicate SigMatches(sig: Event, kinds: ReleaseKinds, signers: seq<string>, release: Event)
  {
    sig.wellFormed
    && sig.kind == kinds.signature
    && sig.pubkey in signers
    && Tv(sig.tags, "r") == Tv(release.tags, "r")
    && Tv(sig.tags, "x") == Tv(release.tags, "x")
    && Tv(sig.tags, "v") == Tv(release.tags, "v")
    && IsProd(sig.tags) == IsProd(release.tags)
    && sig.verified
  }

  /** The signatures kept from `texts`; `parse` is `JSON.parse`, `None` when it throws. */
  function AcceptedSigs(texts: seq<string>, parse: string -> Option<Event>, kinds: ReleaseKinds,
                        signers: seq<string>, release: Event): (r: seq<Event>)
    ensures |r| <= |texts|
    ensures forall s :: s in r ==> SigMatches(s, kinds, signers, release)
    ensures forall s :: s in r ==> exists k :: 0 <= k < |texts| && parse(texts[k]) == Some(s)
  {
    if texts == [] then []
    else
      var last := texts[|texts| - 1];
      var rest := AcceptedSigs(texts[..|texts| - 1], parse, kinds, signers, release);
      var p := parse(last);
      if p.Some? && SigMatches(p.value, kinds, signers, release) then rest + [p.value] else rest
  }

  predicate HasSigBy(sigs: seq<Event>, pubkey: string)
  {
    exists k :: 0 <= k < |sigs| && sigs[k].pubkey == pubkey
  }

  /** At least one accepted signature per listed signer slot, and one by each signer. */
  predicate Complete(sigs: seq<Event>, signers: seq<string>)
  {
    |sigs| >= |signers| && forall j :: 0 <= j < |signers| ==> HasSigBy(sigs, signers[j])
  }

  predicate IsSigned(release: Event, parse: string -> Option<Event>, kinds: ReleaseKinds, signers: seq<string>)
  {
    Complete(AcceptedSigs(SigTags(release.tags), parse, kinds, signers, release), signers)
  }

  /** The releases of `rs` with a complete signature set, in order. */
  function SignedReleases(rs: seq<Event>, parse: string -> Option<Event>, kinds: ReleaseKinds, signers: seq<string>): (r: seq<Event>)
    ensures forall e :: e in r <==> e in rs && IsSigned(e, parse, kinds, signers)
    ensures multiset(r) <= multiset(rs)
  {
    if rs == [] then []
    else
      var last := rs[|rs| - 1];
      var rest := SignedReleases(rs[..|rs| - 1], parse, kinds, signers);
      assert rs == rs[..|rs| - 1] + [last];
      if IsSigned(last, parse, kinds, signers) then rest + [last] else rest
  }

  /** The version a release advertises, as the sort reads it. */
  function VersionOf(e: Event): string
  {
    OrEmpty(Tv(e.tags, "v"))
  }

  predicate NewerRelease(a: Event, b: Event)
  {
    IsNewVersion(VersionOf(a), VersionOf(b))
  }

  /** `NewerRelease` orders releases strictly: irreflexive and transitive. */
  ghost predicate StrictOrder(newer: (Event, Event) -> bool)
  {
    (forall a :: !newer(a, a))
    && (forall a, b, c :: newer(a, b) && newer(b, c) ==> newer(a, c))
  }

  lemma NewerReleaseIsStrict()
    ensures StrictOrder(NewerRelease)
  {
    forall a ensures !NewerRelease(a, a) {
      IsNewVersionIrreflexive(VersionOf(a));
    }
    forall a, b, c | NewerRelease(a, b) && NewerRelease(b, c) ensures NewerRelease(a, c) {
      IsNewVersionTransitive(VersionOf(a), VersionOf(b), VersionOf(c));
    }
  }

  /** No element is `newer` than one placed before it. */
  predicate Ordered(s: seq<Event>, newer: (Event, Event) -> bool)
  {
    forall i, j :: 0 <= i < j < |s| ==> !newer(s[j], s[i])
  }

  /** Newest first: no release is newer than one placed before it. */
  predicate NewestFirst(s: seq<Event>)
  {
    Ordered(s, NewerRelease)
  }

  /** `x` placed before the first element it is `newer` than. */
  function Insert(x: Event, s: seq<Event>, newer: (Event, Event) -> bool): (r: seq<Event>)
    ensures multiset(r) == multiset(s) + multiset{x}
  {
    if s == [] then [x]
    else if newer(x, s[0]) then [x] + s
    else
      assert s == [s[0]] + s[1..];
      [s[0]] + Insert(x, s[1..], newer)
  }

  /** An element newer than the head of an ordered list goes in front. */
  lemma InsertFront(x: Event, s: seq<Event>, newer: (Event, Event) -> bool)
    requires StrictOrder(newer) && Ordered(s, newer) && s != [] && newer(x, s[0])
    ensures Ordered([x] + s, newer)
  {
    assert forall k :: 0 <= k < |s| ==> !newer(s[k], x);
    var r := [x] + s;
    forall i, j | 0 <= i < j < |r| ensures !newer(r[j], r[i]) {
      assert r[j] == s[j - 1];
      if i > 0 {
        assert r[i] == s[i - 1];
      }
    }
  }

  /** A head that nothing after it outranks stays in front of an ordered tail. */
  lemma ConsOrdered(h: Event, tail: seq<Event>, newer: (Event, Event) -> bool)
    requires Ordered(tail, newer)
    requires forall e :: e in tail ==> !newer(e, h)
    ensures Ordered([h] + tail, newer)
  {
    var r := [h] + tail;
    forall i, j | 0 <= i < j < |r| ensures !newer(r[j], r[i]) {
      assert r[j] == tail[j - 1];
      if i > 0 {
        assert r[i] == tail[i - 1];
      } else {
        assert r[j] in tail;
      }
    }
  }

  lemma TailOrdered(s: seq<Event>, newer: (Event, Event) -> bool)
    requires Ordered(s, newer) && s != []
    ensures Ordered(s[1..], newer)
    ensures forall e :: e in s[1..] ==> !newer(e, s[0])
  {
    var tail := s[1..];
    forall i, j | 0 <= i < j < |tail| ensures !newer(tail[j], tail[i]) {
      assert tail[i] == s[i + 1] && tail[j] == s[j + 1];
    }
    forall e | e in tail ensures !newer(e, s[0]) {
      var k :| 0 <= k < |tail| && tail[k] == e;
      assert s[k + 1] == e;
    }
  }

  lemma {:induction false} InsertOrdered(x: Event, s: seq<Event>, newer: (Event, Event) -> bool)
    requires StrictOrder(newer) && Ordered(s, newer)
    ensures Ordered(Insert(x, s, newer), newer)
  {
    if s == [] {
    } else if newer(x, s[0]) {
      InsertFront(x, s, newer);
    } else {
      TailOrdered(s, newer);
      InsertOrdered(x, s[1..], newer);
      var ins := Insert(x, s[1..], newer);
      forall e | e in ins ensures !newer(e, s[0]) {
        assert e in multiset(ins);
        assert e == x || e in multiset(s[1..]);
      }
      ConsOrdered(s[0], ins, newer);
    }
  }

  /** The comparator sort of `checkUpgrade`, by insertion. */
  function SortBy(s: seq<Event>, newer: (Event, Event) -> bool): (r: seq<Event>)
    ensures multiset(r) == multiset(s)
  {
    if s == [] then []
    else
      assert s == s[..|s| - 1] + [s[|s| - 1]];
      Insert(s[|s| - 1], SortBy(s[..|s| - 1], newer), newer)
  }

  lemma {:induction false} SortByOrdered(s: seq<Event>, newer: (Event, Event) -> bool)
    requires StrictOrder(newer)
    ensures Ordered(SortBy(s, newer), newer)
  {
    if s != [] {
      SortByOrdered(s[..|s| - 1], newer);
      InsertOrdered(s[|s| - 1], SortBy(s[..|s| - 1], newer), newer);
    }
  }

  function SortNewest(s: seq<Event>): (r: seq<Event>)
    ensures multiset(r) == multiset(s)
  {
    SortBy(s, NewerRelease)
  }

  /** The sort puts every release before any it is newer than, and keeps
      every release it was given. */
  lemma SortNewestIsNewestFirst(s: seq<Event>)
    ensures NewestFirst(SortNewest(s))
  {
    NewerReleaseIsStrict();
    SortByOrdered(s, NewerRelease);
  }

  /** The `sigs` loop: collect the accepted signatures of one release. */
  method CollectSigs(release: Event, parse: string -> Option<Event>, kinds: ReleaseKinds, signers: seq<string>)
    returns (sigs: seq<Event>)
    ensures sigs == AcceptedSigs(SigTags(release.tags), parse, kinds, signers, release)
  {
    var texts := SigTags(release.tags);
    sigs := [];
    var i := 0;
    while i < |texts|
      invariant 0 <= i <= |texts|
      invariant sigs == AcceptedSigs(texts[..i], parse, kinds, signers, release)
    {
      assert texts[..i + 1][..i] == texts[..i];
      var sig := parse(texts[i]);
      if sig.Some? && SigMatches(sig.value, kinds, signers, release) {
        sigs := sigs + [sig.value];
      }
      i := i + 1;
    }
    assert texts[..i] == texts;
  }

  /** The signer loop: does every listed signer have a signature? */
  method AllSignersPresent(sigs: seq<Event>, signers: seq<string>) returns (ok: bool)
    ensures ok <==> forall j :: 0 <= j < |signers| ==> HasSigBy(sigs, signers[j])
  {
    var invalid := false;
    var j := 0;
    while j < |signers|
      invariant 0 <= j <= |signers|
      invariant forall k :: 0 <= k < j ==> HasSigBy(sigs, signers[k])
    {
      if !HasSigBy(sigs, signers[j]) {
        invalid := true;
        break;
      }
      j := j + 1;
    }
    ok := !invalid;
  }

  /** The per-release part of `checkUpgrade`: enough accepted signatures,
      and one by every listed signer. */
  method CheckRelease(r: Event, parse: string -> Option<Event>, kinds: ReleaseKinds, signers: seq<string>)
    returns (signed: bool)
    ensures signed <==> IsSigned(r, parse, kinds, signers)
  {
    var sigs := CollectSigs(r, parse, kinds, signers);
    signed := false;
    if |sigs| >= |signers| {
      signed := AllSignersPresent(sigs, signers);
    }
  }

  /** `checkUpgrade` on the fetched `events`: the signed releases newer than
      `version`, newest first. */
  method CheckUpgrade(events: seq<Event>, kinds: ReleaseKinds, signers: seq<string>, repo: string,
                      version: string, parse: string -> Option<Event>) returns (releases: seq<Event>)
    ensures releases == SortNewest(SignedReleases(NewReleases(events, kinds, signers, repo, version), parse, kinds, signers))
  {
    var candidates := NewReleases(events, kinds, signers, repo, version);
    var valid: seq<Event> := [];
    var i := 0;
    while i < |candidates|
      invariant 0 <= i <= |candidates|
      invariant valid == SignedReleases(candidates[..i], parse, kinds, signers)
    {
      var r := candidates[i];
      var prefix := candidates[..i + 1];
      assert prefix[..|prefix| - 1] == candidates[..i] && prefix[|prefix| - 1] == r;
      var signed := CheckRelease(r, parse, kinds, signers);
      if signed {
        valid := valid + [r];
      }
      i := i + 1;
    }
    assert candidates[..i] == candidates;
    releases := SortNewest(valid);
  }

  /** With a NaN fragment the sort's comparator is not consistent, so
      `Array.prototype.sort` may return any order: for releases fetched as
      1.3.0, 1.3.0-rc1, 1.3.1 every adjacent comparison of the source's
      comparator is 0, so an engine that keeps a run it sees as sorted
      returns them unchanged, which is not newest first. */
  lemma NaNFragmentBreaksNewestFirst(a: Event, b: Event, c: Event)
    requires VersionOf(a) == "1.3.0" && VersionOf(b) == "1.3.0-rc1" && VersionOf(c) == "1.3.1"
    ensures !NewerRelease(a, b) && !NewerRelease(b, a) && !NewerRelease(b, c) && !NewerRelease(c, b)
    ensures !NewestFirst([a, b, c])
    ensures NewestFirst(SortNewest([a, b, c]))
  {
    NaNFragmentIncomparable();
    SortNewestIsNewestFirst([a, b, c]);
    assert [a, b, c][0] == a && [a, b, c][2] == c;
  }

  /** What `checkUpgrade` returns: exactly the candidates that every listed
      signer vouched for, each newer than the running version, newest first. */
  lemma CheckUpgradeResult(events: seq<Event>, kinds: ReleaseKinds, signers: seq<string>, repo: string,
                           version: string, parse: string -> Option<Event>)
    ensures var r := SortNewest(SignedReleases(NewReleases(events, kinds, signers, repo, version), parse, kinds, signers));
      NewestFirst(r)
      && (forall e :: e in r <==> e in events && IsCandidate(e, kinds, signers, repo, version) && IsSigned(e, parse, kinds, signers))
      && (forall e :: e in r ==> IsNewVersion(VersionOf(e), version))
  {
    var signed := SignedReleases(NewReleases(events, kinds, signers, repo, version), parse, kinds, signers);
    SortNewestIsNewestFirst(signed);
    var r := SortNewest(signed);
    forall e ensures e in r <==> e in signed {
      assert e in r <==> e in multiset(r);
      assert e in signed <==> e in multiset(signed);
    }
  }

  // ---------------------------------------------------------------------
  // Certificate templates

  /** An unsigned event: what the templates build before signing. */
  datatype Template = Template(pubkey: string, kind: int, createdAt: int, content: string, tags: seq<seq<string>>)

  /** What the attestation yields: its base64 document, the environment
      tag, and the certificate's end of validity in milliseconds when the
      attestation carries certificate info. */
  datatype Attestation = Attestation(base64: string, env: string, validToMs: Option<int>)

  function PrepareRootCertificate(info: Attestation, servicePubkey: string, now: int): (t: Template)
    ensures t.kind == Consts.KindRootCertificate && t.pubkey == servicePubkey && t.content == info.base64
    ensures |t.tags| == 4 && t.tags[0] == ["-"] && t.tags[1] == ["t", info.env]
      && t.tags[3] == ["alt", "attestation certificate by AWS Nitro Enclave"]
    ensures info.validToMs.None? ==> Tv(t.tags, "expiration") == Some(NatToString(Consts.CertTtl))
    ensures info.validToMs.Some? ==> Tv(t.tags, "expiration") == Some(IntToString(Floor(info.validToMs.value, 1000)))
  {
    var expiration := if info.validToMs.Some? then Floor(info.validToMs.value, 1000) else Consts.CertTtl;
    var tags := [["-"], ["t", info.env], ["expiration", IntToString(expiration)],
                 ["alt", "attestation certificate by AWS Nitro Enclave"]];
    assert Tv(tags[2..], "expiration") == Some(IntToString(expiration));
    assert Tv(tags[1..], "expiration") == Tv(tags[1..][1..], "expiration") by { assert tags[1..][1..] == tags[2..]; }
    Template(servicePubkey, Consts.KindRootCertificate, now, info.base64, tags)
  }

  /** `Math.floor(a / b)` for a positive divisor. */
  function Floor(a: int, b: int): (q: int)
    requires b > 0
    ensures q * b <= a < (q + 1) * b
  {
    a / b
  }

  function PrepareContainerCert(info: RecordStore.DBContainer, servicePubkey: string, now: int): (t: Template)
    ensures t.kind == Consts.KindEnclavedCertificate && t.pubkey == servicePubkey && t.content == ""
    ensures |t.tags| == if info.docker != "" then 4 else 3
    ensures t.tags[..3] == [["p", info.pubkey, "container"], ["expiration", IntToString(now + Consts.CertTtl)],
                            ["alt", "enclaved container certificate"]]
    ensures Tv(t.tags, "p") == Some(info.pubkey)
    ensures Tv(t.tags, "r") == if info.docker != "" then Some("docker://" + info.docker) else None
  {
    var tags := [["p", info.pubkey, "container"], ["expiration", IntToString(now + Consts.CertTtl)],
                 ["alt", "enclaved container certificate"]];
    var all := if info.docker != "" then tags + [["r", "docker://" + info.docker]] else tags;
    assert Tv(all[3..], "r") == if info.docker != "" then Some("docker://" + info.docker) else None;
    assert all[1..][1..][1..] == all[3..];
    Template(servicePubkey, Consts.KindEnclavedCertificate, now, "", all)
  }

  /** Signed with the container's own key: the author is the container. */
  function PrepareAppCert(info: RecordStore.DBContainer, appPubkey: string, now: int): (t: Template)
    ensures t.kind == Consts.KindEnclavedCertificate && t.pubkey == info.pubkey && t.content == ""
    ensures t.tags == [["p", appPubkey, "app"], ["expiration", IntToString(now + Consts.CertTtl)],
                       ["alt", "enclaved app certificate"]]
    ensures Tv(t.tags, "p") == Some(appPubkey)
  {
    Template(info.pubkey, Consts.KindEnclavedCertificate, now, "",
      [["p", appPubkey, "app"], ["expiration", IntToString(now + Consts.CertTtl)], ["alt", "enclaved app certificate"]])
  }

  /** The expiration tag of a new certificate reads back as `now + CERT_TTL`. */
  lemma CertExpirationReadsBack(info: RecordStore.DBContainer, servicePubkey: string, now: nat)
    ensures var e := Tv(PrepareContainerCert(info, servicePubkey, now).tags, "expiration");
      e.Some? && AllDigits(e.value) && DigitsValue(e.value) == now + Consts.CertTtl
  {
    var t := PrepareContainerCert(info, servicePubkey, now);
    var tags := t.tags;
    assert tags[0][0] == "p" != "expiration";
    assert Tv(tags, "expiration") == Tv(tags[1..], "expiration");
    assert tags[1..][0] == ["expiration", NatToString(now + Consts.CertTtl)];
    DigitsValueOfNatToString(now + Consts.CertTtl);
  }
}
