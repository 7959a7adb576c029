/** How stale the cached access version can get when requests interleave and cache deletes fail
    (src/core/dependencies.py, src/core/caching.py, and the sites that bump a version).

    One user's version row and cache entry.  A request that bumps the version loads the row, commits
    the loaded value plus one, and then deletes the entry; a slow authentication reads the row and
    writes the entry afterwards.  Any of these steps may be delayed or fail. */
module CacheStaleness {
  import opened Prelude

  // A version read from the database and not written to the cache yet.
  datatype Reader = Reader(version: nat, readAt: Time)

  // A cache entry, with the moments of its read and its write.
  datatype Cached = Cached(version: nat, readAt: Time, writtenAt: Time)

  datatype State = State(
    now: Time,
    version: nat,                     // the column users_sessions.access_token_version
    firstSuperseded: map<nat, Time>,  // when a version was replaced by another for the first time
    lastSuperseded: map<nat, Time>,   // and when for the last
    cache: Option<Cached>,
    readers: multiset<Reader>,
    bumpers: multiset<nat>,           // versions loaded by requests that are going to bump
    deletes: nat)                     // committed bumps whose delete_cache is still to come

  datatype Action =
    | Tick(seconds: nat)
    | Load                            // a bumping request loads the row
    | CommitBump(loaded: nat)
    | DeleteCache(ok: bool)
    | ReadRow                         // a slow authentication reads the row
    | WriteCache(reader: Reader, ok: bool)
    | Evict

  // The lag from the read to the cache write is at most `lag`.
  predicate Enabled(lag: nat, s: State, a: Action) {
    match a
    case CommitBump(loaded) => loaded in s.bumpers
    case DeleteCache(_) => s.deletes > 0
    case WriteCache(reader, _) => reader in s.readers && s.now <= reader.readAt + lag
    case _ => true
  }

  function Do(s: State, a: Action): State {
    match a
    case Tick(seconds) => s.(now := s.now + seconds)
    case Load => s.(bumpers := s.bumpers + multiset{s.version})
    case CommitBump(loaded) =>
      var replaced := loaded + 1 != s.version;
      s.(version := loaded + 1,
         firstSuperseded :=
           if replaced && s.version !in s.firstSuperseded then s.firstSuperseded[s.version := s.now]
           else s.firstSuperseded,
         lastSuperseded := if replaced then s.lastSuperseded[s.version := s.now] else s.lastSuperseded,
         bumpers := s.bumpers - multiset{loaded},
         deletes := s.deletes + 1)
    case DeleteCache(ok) =>
      s.(cache := if ok then None else s.cache, deletes := if s.deletes > 0 then s.deletes - 1 else 0)
    case ReadRow => s.(readers := s.readers + multiset{Reader(s.version, s.now)})
    case WriteCache(reader, ok) =>
      s.(cache := if ok then Some(Cached(reader.version, reader.readAt, s.now)) else s.cache,
         readers := s.readers - multiset{reader})
    case Evict => s.(cache := None)
  }

  ghost predicate Runs(lag: nat, s: State, actions: seq<Action>)
    decreases |actions|
  {
    actions == [] || (Enabled(lag, s, actions[0]) && Runs(lag, Do(s, actions[0]), actions[1..]))
  }

  function After(s: State, actions: seq<Action>): State
    decreases |actions|
  {
    if actions == [] then s else After(Do(s, actions[0]), actions[1..])
  }

  predicate Init(s: State) {
    s.firstSuperseded == map[] && s.lastSuperseded == map[] && s.cache == None
    && s.readers == multiset{} && s.bumpers == multiset{} && s.deletes == 0
  }

  // The cached path of get_current_user lets a token of this version in.
  predicate AcceptedFromCache(s: State, version: nat) {
    s.cache.Some? && s.now < s.cache.value.writtenAt + VERSION_TTL && s.cache.value.version == version
  }

  // ----- Staleness is bounded -----

  // This version was the stored one at that moment or later.
  predicate CurrentSince(s: State, version: nat, moment: Time) {
    moment <= s.now && (version == s.version || (version in s.lastSuperseded && moment <= s.lastSuperseded[version]))
  }

  ghost predicate Inv(lag: nat, s: State) {
    (s.cache.Some? ==>
       var c := s.cache.value;
       CurrentSince(s, c.version, c.readAt) && c.readAt <= c.writtenAt <= c.readAt + lag && c.writtenAt <= s.now)
    && (forall reader | reader in s.readers :: CurrentSince(s, reader.version, reader.readAt))
  }

  // What was current since some moment still is, whatever happens next.
  lemma StillCurrentSince(s: State, a: Action, version: nat, moment: Time)
    requires CurrentSince(s, version, moment)
    ensures CurrentSince(Do(s, a), version, moment)
  {
  }

  lemma DoKeepsInv(lag: nat, s: State, a: Action)
    requires Inv(lag, s) && Enabled(lag, s, a)
    ensures Inv(lag, Do(s, a))
  {
    var s' := Do(s, a);
    forall reader | reader in s'.readers ensures CurrentSince(s', reader.version, reader.readAt) {
      if reader in s.readers {
        StillCurrentSince(s, a, reader.version, reader.readAt);
      }
    }
    if a.WriteCache? {
      StillCurrentSince(s, a, a.reader.version, a.reader.readAt);
    } else if s.cache.Some? {
      StillCurrentSince(s, a, s.cache.value.version, s.cache.value.readAt);
    }
  }

  lemma {:induction false} RunKeepsInv(lag: nat, s: State, actions: seq<Action>)
    requires Inv(lag, s) && Runs(lag, s, actions)
    ensures Inv(lag, After(s, actions))
    decreases |actions|
  {
    if actions == [] {
    } else {
      DoKeepsInv(lag, s, actions[0]);
      RunKeepsInv(lag, Do(s, actions[0]), actions[1..]);
    }
  }

  /** However requests interleave and whichever cache calls fail: a version accepted from the cache was
      the stored one at a read whose cache write is less than 300 seconds old.  So it is the stored one, or
      it stopped being the stored one less than 300 seconds plus the lag ago. */
  lemma StalenessIsBounded(lag: nat, s0: State, actions: seq<Action>, version: nat)
    requires Init(s0) && Runs(lag, s0, actions)
    ensures var s := After(s0, actions);
            AcceptedFromCache(s, version) ==>
              CurrentSince(s, version, s.cache.value.readAt)
              && s.cache.value.writtenAt <= s.now < s.cache.value.writtenAt + VERSION_TTL
              && s.cache.value.writtenAt <= s.cache.value.readAt + lag
              && (version == s.version
                  || (version in s.lastSuperseded && s.now < s.lastSuperseded[version] + VERSION_TTL + lag))
  {
    RunKeepsInv(lag, s0, actions);
  }

  // ----- While no version is lost, superseded means superseded for good -----

  // No commit writes a version below the stored one.
  predicate NeverLosesVersions(s: State, actions: seq<Action>)
    decreases |actions|
  {
    actions == []
    || ((actions[0].CommitBump? ==> s.version <= actions[0].loaded + 1)
        && NeverLosesVersions(Do(s, actions[0]), actions[1..]))
  }

  // A version is superseded once, and lies below the stored one from then on.
  ghost predicate SupersededForGood(s: State) {
    s.firstSuperseded == s.lastSuperseded && forall version | version in s.lastSuperseded :: version < s.version
  }

  lemma {:induction false} SupersededStaysBelow(lag: nat, s: State, actions: seq<Action>)
    requires SupersededForGood(s) && Runs(lag, s, actions) && NeverLosesVersions(s, actions)
    ensures SupersededForGood(After(s, actions))
    decreases |actions|
  {
    if actions == [] {
    } else {
      SupersededStaysBelow(lag, Do(s, actions[0]), actions[1..]);
    }
  }

  /** As long as no bump takes the version back, a version that was ever superseded is accepted from the
      cache for less than 300 seconds plus the lag after that moment, and never again. */
  lemma SupersededIsRejectedInTime(lag: nat, s0: State, actions: seq<Action>, version: nat)
    requires Init(s0) && Runs(lag, s0, actions) && NeverLosesVersions(s0, actions)
    ensures var s := After(s0, actions);
            version in s.firstSuperseded && s.firstSuperseded[version] + VERSION_TTL + lag <= s.now ==>
              !AcceptedFromCache(s, version) && version < s.version
  {
    StalenessIsBounded(lag, s0, actions, version);
    SupersededStaysBelow(lag, s0, actions);
  }

  predicate DeletesSucceed(actions: seq<Action>) {
    forall i | 0 <= i < |actions| :: actions[i].DeleteCache? ==> actions[i].ok
  }

  // One more action at the end of a run that has come to s.
  lemma {:induction false} Then(lag: nat, s0: State, actions: seq<Action>, s: State, a: Action)
    returns (longer: seq<Action>)
    requires Runs(lag, s0, actions) && After(s0, actions) == s && Enabled(lag, s, a)
    ensures longer == actions + [a]
    ensures Runs(lag, s0, longer) && After(s0, longer) == Do(s, a)
    ensures DeletesSucceed(actions) && (a.DeleteCache? ==> a.ok) ==> DeletesSucceed(longer)
    decreases |actions|
  {
    longer := actions + [a];
    if actions == [] {
      assert longer[1..] == [];
    } else {
      assert longer[1..] == actions[1..] + [a];
      var rest := Then(lag, Do(s0, actions[0]), actions[1..], s, a);
    }
  }

  // A bump commits while an authentication that has read the row waits; its delete finds no entry.
  lemma BumpPastReader(lag: nat, s0: State) returns (actions: seq<Action>)
    requires Init(s0)
    ensures Runs(lag, s0, actions) && DeletesSucceed(actions)
    ensures After(s0, actions)
         == State(s0.now, s0.version + 1, map[s0.version := s0.now], map[s0.version := s0.now], None,
                  multiset{Reader(s0.version, s0.now)}, multiset{}, 0)
  {
    var v := s0.version;
    var readers := multiset{Reader(v, s0.now)};
    actions := [];
    actions := Then(lag, s0, actions, s0, ReadRow);
    var s1 := State(s0.now, v, map[], map[], None, readers, multiset{}, 0);
    assert Do(s0, ReadRow) == s1;
    actions := Then(lag, s0, actions, s1, Load);
    var s2 := State(s0.now, v, map[], map[], None, readers, multiset{v}, 0);
    assert Do(s1, Load) == s2;
    actions := Then(lag, s0, actions, s2, CommitBump(v));
    var s3 := State(s0.now, v + 1, map[v := s0.now], map[v := s0.now], None, readers, multiset{}, 1);
    assert Do(s2, CommitBump(v)) == s3;
    actions := Then(lag, s0, actions, s3, DeleteCache(true));
  }

  /** The bound is reached: with every cache delete succeeding, a slow authentication that read the row
      just before a bump revives the old version until one second before the bound. */
  lemma StalenessIsReached(lag: nat, s0: State) returns (actions: seq<Action>)
    requires Init(s0)
    ensures Runs(lag, s0, actions) && DeletesSucceed(actions)
    ensures var s := After(s0, actions);
            s.version == s0.version + 1 && s.deletes == 0
            && s0.version in s.firstSuperseded
            && s.now + 1 == s.firstSuperseded[s0.version] + VERSION_TTL + lag
            && AcceptedFromCache(s, s0.version)
  {
    var reader := Reader(s0.version, s0.now);
    actions := BumpPastReader(lag, s0);
    var s4 := After(s0, actions);
    actions := Then(lag, s0, actions, s4, Tick(lag));
    var s5 := Do(s4, Tick(lag));
    actions := Then(lag, s0, actions, s5, WriteCache(reader, true));
    actions := Then(lag, s0, actions, Do(s5, WriteCache(reader, true)), Tick(299));
  }

  // ----- The cached version against the stored one -----

  predicate NotAhead(s: State) {
    s.cache.Some? ==> s.cache.value.version <= s.version
  }

  ghost predicate NobodyIsAhead(s: State) {
    NotAhead(s) && forall reader | reader in s.readers :: reader.version <= s.version
  }

  lemma DoKeepsBehind(lag: nat, s: State, a: Action)
    requires NobodyIsAhead(s) && Enabled(lag, s, a) && (a.CommitBump? ==> s.version <= a.loaded + 1)
    ensures NobodyIsAhead(Do(s, a))
  {
    var s' := Do(s, a);
    forall reader | reader in s'.readers ensures reader.version <= s'.version {
      assert reader in s.readers || reader == Reader(s.version, s.now);
    }
  }

  /** The cached version never exceeds the stored one as long as no bump commits from a row so old that
      it takes the version back. */
  lemma {:induction false} CacheNotAhead(lag: nat, s: State, actions: seq<Action>)
    requires NobodyIsAhead(s) && Runs(lag, s, actions) && NeverLosesVersions(s, actions)
    ensures NobodyIsAhead(After(s, actions))
    decreases |actions|
  {
    if actions == [] {
    } else {
      DoKeepsBehind(lag, s, actions[0]);
      CacheNotAhead(lag, Do(s, actions[0]), actions[1..]);
    }
  }

  // An authentication that reads the row and writes the cache at once.
  function Filled(s: State): State {
    Do(Do(s, ReadRow), WriteCache(Reader(s.version, s.now), true))
  }

  lemma FilledCaches(s: State)
    ensures Filled(s) == s.(cache := Some(Cached(s.version, s.now, s.now)))
  {
    assert s.readers + multiset{Reader(s.version, s.now)} - multiset{Reader(s.version, s.now)} == s.readers;
  }

  // The run without its tail from action n on, whose last action comes just after an authentication.
  function WithDetour(s0: State, actions: seq<Action>, n: nat): seq<Action>
    requires n < |actions|
  {
    var s := After(s0, actions[..n]);
    actions[..n] + [ReadRow, WriteCache(Reader(s.version, s.now), true), actions[n]]
  }

  lemma {:induction false} PrefixRuns(lag: nat, s0: State, actions: seq<Action>, n: nat)
    requires Runs(lag, s0, actions) && n < |actions|
    ensures Runs(lag, s0, actions[..n]) && Enabled(lag, After(s0, actions[..n]), actions[n])
    decreases n
  {
    if n == 0 {
    } else {
      assert actions[..n][1..] == actions[1..][..n - 1];
      PrefixRuns(lag, Do(s0, actions[0]), actions[1..], n - 1);
    }
  }

  lemma DetourIsLegal(lag: nat, s0: State, actions: seq<Action>, n: nat)
    requires Runs(lag, s0, actions) && n < |actions|
    ensures Runs(lag, s0, WithDetour(s0, actions, n))
    ensures After(s0, WithDetour(s0, actions, n)) == Do(Filled(After(s0, actions[..n])), actions[n])
  {
    PrefixRuns(lag, s0, actions, n);
    var s := After(s0, actions[..n]);
    var reader := Reader(s.version, s.now);
    FilledCaches(s);
    var detour := Then(lag, s0, actions[..n], s, ReadRow);
    assert reader in Do(s, ReadRow).readers;
    detour := Then(lag, s0, detour, Do(s, ReadRow), WriteCache(reader, true));
    detour := Then(lag, s0, detour, Filled(s), actions[n]);
    assert detour == WithDetour(s0, actions, n);
  }

  // In no such variant of the run does the cache get ahead of the database.
  ghost predicate NoDetourGetsAhead(s0: State, actions: seq<Action>) {
    forall n: nat | n < |actions| :: NotAhead(After(s0, WithDetour(s0, actions, n)))
  }

  lemma {:induction false} NeverLosesBefore(s: State, actions: seq<Action>, n: nat)
    requires NeverLosesVersions(s, actions) && n < |actions|
    ensures NeverLosesVersions(s, actions[..n])
    ensures actions[n].CommitBump? ==> After(s, actions[..n]).version <= actions[n].loaded + 1
    decreases n
  {
    if n == 0 {
    } else {
      assert actions[..n][1..] == actions[1..][..n - 1];
      NeverLosesBefore(Do(s, actions[0]), actions[1..], n - 1);
    }
  }

  // The first bump of the run that takes the version back.
  lemma {:induction false} LosingBump(lag: nat, s: State, actions: seq<Action>) returns (n: nat)
    requires Runs(lag, s, actions) && !NeverLosesVersions(s, actions)
    ensures n < |actions| && actions[n].CommitBump? && actions[n].loaded + 1 < After(s, actions[..n]).version
    decreases |actions|
  {
    if actions[0].CommitBump? && actions[0].loaded + 1 < s.version {
      n := 0;
    } else {
      var m := LosingBump(lag, Do(s, actions[0]), actions[1..]);
      n := m + 1;
      assert actions[..n][1..] == actions[1..][..m];
    }
  }

  /** One bump is safe, whether or not the cache is filled before it, if and only if the version it loaded
      is at most one behind. */
  lemma BumpIsSafeIff(s: State, loaded: nat)
    requires NotAhead(s)
    ensures (NotAhead(Do(s, CommitBump(loaded))) && NotAhead(Do(Filled(s), CommitBump(loaded))))
       <==> s.version <= loaded + 1
  {
    FilledCaches(s);
  }

  // Right after an authentication any other step leaves the cache behind.
  lemma FilledThenDo(lag: nat, s: State, a: Action)
    requires NobodyIsAhead(s) && Enabled(lag, s, a) && (a.CommitBump? ==> s.version <= a.loaded + 1)
    ensures NotAhead(Do(Filled(s), a))
  {
    FilledCaches(s);
    if a.CommitBump? {
      BumpIsSafeIff(s, a.loaded);
    }
  }

  /** And exactly then: in a run whose bumps never take the version back no authentication, wherever it is
      inserted, lets the cache get ahead; and if one bump does, an authentication just before it does. */
  lemma NeverAheadIff(lag: nat, s0: State, actions: seq<Action>)
    requires NobodyIsAhead(s0) && Runs(lag, s0, actions)
    ensures NeverLosesVersions(s0, actions) <==> NoDetourGetsAhead(s0, actions)
  {
    if NeverLosesVersions(s0, actions) {
      forall n: nat | n < |actions| ensures NotAhead(After(s0, WithDetour(s0, actions, n))) {
        DetourIsLegal(lag, s0, actions, n);
        PrefixRuns(lag, s0, actions, n);
        NeverLosesBefore(s0, actions, n);
        CacheNotAhead(lag, s0, actions[..n]);
        FilledThenDo(lag, After(s0, actions[..n]), actions[n]);
      }
    } else {
      var n := LosingBump(lag, s0, actions);
      DetourIsLegal(lag, s0, actions, n);
      FilledCaches(After(s0, actions[..n]));
      assert !NotAhead(After(s0, WithDetour(s0, actions, n)));
    }
  }

  // ----- When revocation is immediate -----

  // Whatever the cache lets in now is the stored version.
  predicate CacheIsCurrent(s: State) {
    s.cache.Some? && s.now < s.cache.value.writtenAt + VERSION_TTL ==> s.cache.value.version == s.version
  }

  // All along the run, once no bump still has its delete to come, no superseded version is let in.
  predicate RevokesAtOnce(s: State, actions: seq<Action>)
    decreases |actions|
  {
    (s.deletes == 0 ==> CacheIsCurrent(s)) && (actions == [] || RevokesAtOnce(Do(s, actions[0]), actions[1..]))
  }

  // A write with no delete to come carries the stored version; a last delete that fails has nothing to drop.
  predicate LeavesNothingStale(s: State, a: Action) {
    match a
    case WriteCache(reader, ok) => ok && s.deletes == 0 ==> reader.version == s.version
    case DeleteCache(ok) => !ok && s.deletes == 1 ==> CacheIsCurrent(s)
    case _ => true
  }

  predicate NeverLeavesStale(s: State, actions: seq<Action>)
    decreases |actions|
  {
    actions == [] || (LeavesNothingStale(s, actions[0]) && NeverLeavesStale(Do(s, actions[0]), actions[1..]))
  }

  lemma DoRevokesAtOnce(lag: nat, s: State, a: Action)
    requires Enabled(lag, s, a) && (s.deletes == 0 ==> CacheIsCurrent(s))
    ensures (Do(s, a).deletes == 0 ==> CacheIsCurrent(Do(s, a))) <==> LeavesNothingStale(s, a)
  {
  }

  /** Revocation is immediate all along a run, whatever overlaps in it, if and only if no authentication
      writes a superseded version after the last outstanding delete, and no last outstanding delete fails
      on an entry that is still let in. */
  lemma {:induction false} RevokesAtOnceIff(lag: nat, s: State, actions: seq<Action>)
    requires Runs(lag, s, actions) && (s.deletes == 0 ==> CacheIsCurrent(s))
    ensures RevokesAtOnce(s, actions) <==> NeverLeavesStale(s, actions)
    decreases |actions|
  {
    if actions == [] {
    } else {
      var s1 := Do(s, actions[0]);
      DoRevokesAtOnce(lag, s, actions[0]);
      if s1.deletes == 0 && !CacheIsCurrent(s1) {
        assert !RevokesAtOnce(s1, actions[1..]);
      } else {
        RevokesAtOnceIff(lag, s1, actions[1..]);
      }
    }
  }

  // A bump loads the row, and while it waits two others follow each other.
  lemma BumpPastTwo(lag: nat, s0: State) returns (actions: seq<Action>)
    requires Init(s0)
    ensures Runs(lag, s0, actions)
    ensures var s := After(s0, actions);
            s.now == s0.now && s.version == s0.version + 2 && s.bumpers == multiset{s0.version}
            && s.readers == multiset{}
            && s0.version + 1 in s.firstSuperseded && s.firstSuperseded[s0.version + 1] == s0.now
  {
    var v := s0.version;
    actions := [];
    actions := Then(lag, s0, actions, s0, Load);
    var s1 := Do(s0, Load);
    assert s1.bumpers == multiset{v};
    actions := Then(lag, s0, actions, s1, Load);
    var s2 := Do(s1, Load);
    assert s2.bumpers == multiset{v, v};
    actions := Then(lag, s0, actions, s2, CommitBump(v));
    var s3 := Do(s2, CommitBump(v));
    assert s3.bumpers == multiset{v};
    actions := Then(lag, s0, actions, s3, Load);
    var s4 := Do(s3, Load);
    assert s4.bumpers == multiset{v, v + 1};
    actions := Then(lag, s0, actions, s4, CommitBump(v + 1));
    assert Do(s4, CommitBump(v + 1)).bumpers == multiset{v};
  }

  /** A bump that overlaps two others takes the version back: version + 2 is stored and cached, and then
      version + 1 is stored, so the cache is ahead of the database. */
  lemma OverlappingBumpsLoseAVersion(lag: nat, s0: State) returns (actions: seq<Action>)
    requires Init(s0)
    ensures Runs(lag, s0, actions) && After(s0, actions).version == s0.version + 1
    ensures After(s0, actions).cache.Some? && After(s0, actions).cache.value.version == s0.version + 2
  {
    var v := s0.version;
    var reader := Reader(v + 2, s0.now);
    actions := BumpPastTwo(lag, s0);
    var s5 := After(s0, actions);
    actions := Then(lag, s0, actions, s5, ReadRow);
    var s6 := Do(s5, ReadRow);
    assert reader in s6.readers;
    actions := Then(lag, s0, actions, s6, WriteCache(reader, true));
    actions := Then(lag, s0, actions, Do(s6, WriteCache(reader, true)), CommitBump(v));
  }

  // ----- A version that comes back -----

  predicate Seen(s: State, version: nat) {
    version == s.version || version in s.firstSuperseded
  }

  // The versions stored so far have no gap above the first one, and bumps have loaded one of them.
  ghost predicate NoGaps(first: nat, s: State) {
    && (forall low: nat, high: nat | first <= low <= high && Seen(s, high) :: Seen(s, low))
    && (forall loaded | loaded in s.bumpers :: first <= loaded && Seen(s, loaded))
    && first <= s.version
  }

  lemma DoKeepsNoGaps(lag: nat, first: nat, s: State, a: Action)
    requires NoGaps(first, s) && Enabled(lag, s, a)
    ensures NoGaps(first, Do(s, a))
  {
    var s' := Do(s, a);
    forall low: nat, high: nat | first <= low <= high && Seen(s', high) ensures Seen(s', low) {
      assert a.CommitBump? ==> Seen(s, a.loaded);
      assert Seen(s, high) || (a.CommitBump? && high == a.loaded + 1);
      assert Seen(s, low) || (a.CommitBump? && low == a.loaded + 1);
    }
    forall loaded | loaded in s'.bumpers ensures first <= loaded && Seen(s', loaded) {
      assert loaded in s.bumpers || loaded == s.version;
    }
  }

  lemma {:induction false} RunKeepsNoGaps(lag: nat, first: nat, s: State, actions: seq<Action>)
    requires NoGaps(first, s) && Runs(lag, s, actions)
    ensures NoGaps(first, After(s, actions))
    decreases |actions|
  {
    if actions == [] {
    } else {
      DoKeepsNoGaps(lag, first, s, actions[0]);
      RunKeepsNoGaps(lag, first, Do(s, actions[0]), actions[1..]);
    }
  }

  predicate SupersededBefore(s: State, version: nat) {
    version in s.firstSuperseded ==> s.firstSuperseded[version] <= s.now
  }

  lemma {:induction false} SupersededInThePast(lag: nat, s: State, actions: seq<Action>, version: nat)
    requires Runs(lag, s, actions) && SupersededBefore(s, version)
    ensures SupersededBefore(After(s, actions), version)
    decreases |actions|
  {
    if actions == [] {
    } else {
      SupersededInThePast(lag, Do(s, actions[0]), actions[1..], version);
    }
  }

  // A bump that waits before it takes the version back, and an authentication after it.
  function Restoring(s: State, bump: Action, wait: nat): seq<Action>
    requires bump.CommitBump?
  {
    [Tick(wait), bump, ReadRow, WriteCache(Reader(bump.loaded + 1, s.now + wait), true)]
  }

  lemma ThenRestoring(lag: nat, s0: State, before: seq<Action>, s: State, bump: Action, wait: nat)
    requires Runs(lag, s0, before) && After(s0, before) == s && Enabled(lag, s, bump)
    requires bump.CommitBump? && bump.loaded + 1 in s.firstSuperseded
    ensures Runs(lag, s0, before + Restoring(s, bump, wait))
    ensures var s' := After(s0, before + Restoring(s, bump, wait));
            AcceptedFromCache(s', bump.loaded + 1)
            && bump.loaded + 1 in s'.firstSuperseded
            && s'.firstSuperseded[bump.loaded + 1] == s.firstSuperseded[bump.loaded + 1]
            && s'.now == s.now + wait
  {
    var actions := Then(lag, s0, before, s, Tick(wait));
    var s1 := Do(s, Tick(wait));
    actions := Then(lag, s0, actions, s1, bump);
    var s2 := Do(s1, bump);
    var reader := Reader(bump.loaded + 1, s2.now);
    actions := Then(lag, s0, actions, s2, ReadRow);
    assert reader in Do(s2, ReadRow).readers;
    actions := Then(lag, s0, actions, Do(s2, ReadRow), WriteCache(reader, true));
    assert actions == before + Restoring(s, bump, wait);
  }

  /** Conversely, whenever a bump takes the version back, the version it writes was superseded before; let
      it wait first, and authenticate after it, and that version is accepted from the cache as long after
      it was first superseded as one likes. */
  lemma LosingBumpRestoresAVersion(lag: nat, s0: State, actions: seq<Action>, wait: nat) returns (n: nat)
    requires Init(s0) && Runs(lag, s0, actions) && !NeverLosesVersions(s0, actions)
    ensures n < |actions| && actions[n].CommitBump?
    ensures var restored := actions[..n] + Restoring(After(s0, actions[..n]), actions[n], wait);
            Runs(lag, s0, restored)
            && var s := After(s0, restored);
               var version := actions[n].loaded + 1;
               version in s.firstSuperseded && s.firstSuperseded[version] + wait <= s.now
               && AcceptedFromCache(s, version)
  {
    n := LosingBump(lag, s0, actions);
    PrefixRuns(lag, s0, actions, n);
    var s := After(s0, actions[..n]);
    RunKeepsNoGaps(lag, s0.version, s0, actions[..n]);
    assert Seen(s, s.version) && Seen(s, actions[n].loaded + 1);
    SupersededInThePast(lag, s0, actions[..n], actions[n].loaded + 1);
    ThenRestoring(lag, s0, actions[..n], s, actions[n], wait);
  }

  /** Such a run: a bump overlaps two others, so that version + 1 is superseded and stored again, and it is
      accepted from the cache however long after it was superseded. */
  lemma SupersededVersionComesBack(lag: nat, s0: State, wait: nat) returns (actions: seq<Action>)
    requires Init(s0)
    ensures Runs(lag, s0, actions)
    ensures var s := After(s0, actions);
            s0.version + 1 in s.firstSuperseded && s.firstSuperseded[s0.version + 1] + wait == s.now
            && AcceptedFromCache(s, s0.version + 1)
  {
    var before := BumpPastTwo(lag, s0);
    var s := After(s0, before);
    ThenRestoring(lag, s0, before, s, CommitBump(s0.version), wait);
    actions := before + Restoring(s, CommitBump(s0.version), wait);
  }
}
