/** Two more folds of the self-check: the oldest unfinished run of each series, and the cluster's
    identity from its backup locations. */
module AlertFolds {
  import opened PromQL
  import opened BackupPass
  import opened ClusterState

  const STALLED := 28800.0

  predicate InFlight(b: Backup) { !b.phase.IsTerminal() && !b.projected }

  // ---- The stall fold ----

  /** The oldest creation time of each series' unfinished runs; gated as Latest is. */
  function Oldest(bs: seq<Backup>, keyOf: Backup -> Series, gated: bool): Vector {
    if bs == [] then map[]
    else
      var m := Oldest(bs[..|bs| - 1], keyOf, gated);
      var b := bs[|bs| - 1];
      if !InFlight(b) || (gated && b.created <= 0.0) then m
      else if keyOf(b) in m && b.created >= m[keyOf(b)] then m
      else m[keyOf(b) := b.created]
  }

  function StalledFold(now: real, c: Cluster): Vector {
    Above(Age(now, Oldest(c.backups, b => FoldSeries(c, b), false)), STALLED)
  }

  method OldestUnfinished(c: Cluster) returns (oldest: Vector)
    ensures oldest == Oldest(c.backups, b => FoldSeries(c, b), false)
  {
    oldest := map[];
    var keyOf := b => FoldSeries(c, b);
    for i := 0 to |c.backups|
      invariant oldest == Oldest(c.backups[..i], keyOf, false)
    {
      var b := c.backups[i];
      assert c.backups[..i + 1][..i] == c.backups[..i];
      if b.phase.IsTerminal() { continue; }
      if b.projected { continue; }
      var key := keyOf(b);
      if key in oldest && b.created >= oldest[key] { continue; }
      oldest := oldest[key := b.created];
    }
    assert c.backups[..|c.backups|] == c.backups;
  }

  method BackupStalled(c: Cluster, now: real) returns (breaches: Vector)
    ensures breaches == StalledFold(now, c)
  {
    var oldest := OldestUnfinished(c);
    breaches := map[];
    var rest := oldest.Keys;
    while rest != {}
      invariant rest <= oldest.Keys
      invariant forall s :: s in breaches <==> s in oldest && s !in rest && now - oldest[s] > STALLED
      invariant forall s <- breaches :: breaches[s] == now - oldest[s]
      decreases |rest|
    {
      var key :| key in rest;
      var elapsed := now - oldest[key];
      if elapsed > STALLED { breaches := breaches[key := elapsed]; }
      rest := rest - {key};
    }
  }

  ghost predicate IsOldest(bs: seq<Backup>, keyOf: Backup -> Series, v: Vector) {
    && (forall b <- bs :: InFlight(b) ==> keyOf(b) in v && v[keyOf(b)] <= b.created)
    && (forall s <- v :: exists b <- bs :: InFlight(b) && keyOf(b) == s && b.created == v[s])
  }

  lemma {:induction false} OldestIsOldest(bs: seq<Backup>, keyOf: Backup -> Series, gated: bool)
    requires gated ==> ModernTimes(bs)
    ensures IsOldest(bs, keyOf, Oldest(bs, keyOf, gated))
  {
    if bs != [] {
      var n := |bs| - 1;
      assert bs == bs[..n] + [bs[n]];
      assert forall x <- bs[..n] :: x in bs;
      assert bs[n] in bs;
      OldestIsOldest(bs[..n], keyOf, gated);
    }
  }

  predicate Stuck(now: real, b: Backup) { InFlight(b) && now - b.created > STALLED }

  /** A vector of oldest creation times, aged and cut at the bound, has a series exactly when one of its
      unfinished runs is stuck. */
  lemma AgedExactly(now: real, bs: seq<Backup>, keyOf: Backup -> Series, v: Vector, s: Series)
    requires IsOldest(bs, keyOf, v)
    ensures s in Above(Age(now, v), STALLED) <==> exists b <- bs :: Stuck(now, b) && keyOf(b) == s
  {
    if s in Above(Age(now, v), STALLED) {
      assert s in v && now - v[s] > STALLED;
      var b :| b in bs && InFlight(b) && keyOf(b) == s && b.created == v[s];
      assert Stuck(now, b);
    }
    if b :| b in bs && Stuck(now, b) && keyOf(b) == s {
      assert s in v && v[s] <= b.created;
      assert s in Age(now, v);
    }
  }

  /** An unfinished run of the key, created more than eight hours ago; a projection is no run. */
  predicate StuckRun(now: real, c: Cluster, b: Backup, k: Key) {
    && (b.phase.NoPhase? || b.phase.PendingPhase? || b.phase.HooksPhase? || b.phase.SnapshottingPhase? || b.phase.UploadingPhase?)
    && !b.projected && now - b.created > 28800.0 && RunOf(c, b, k)
  }

  /** A series is breached exactly when it is the namespace's and some run of its key is stuck, and the age it
      is breached with is that of the oldest one: no newer run can hide it, in whatever order they are listed. */
  lemma BreachedByAStuckRun(now: real, c: Cluster, s: Series)
    ensures s in StalledFold(now, c) <==>
      BelongsToTenant(c, s.key.namespace, s.tenant) && exists b <- c.backups :: StuckRun(now, c, b, s.key)
    ensures s in StalledFold(now, c) ==>
      && (exists b <- c.backups :: StuckRun(now, c, b, s.key) && StalledFold(now, c)[s] == now - b.created)
      && forall b <- c.backups :: StuckRun(now, c, b, s.key) ==> now - b.created <= StalledFold(now, c)[s]
  {
    StalledExactly(now, c, s);
    if s in StalledFold(now, c) {
      var keyOf := b => FoldSeries(c, b);
      var b := OldestRun(c.backups, keyOf, false, s);
      assert StuckRun(now, c, b, s.key);
      forall x | x in c.backups && StuckRun(now, c, x, s.key) ensures now - x.created <= StalledFold(now, c)[s] {
        assert keyOf(x) == s;
        NoOlder(c.backups, keyOf, false, x);
      }
    }
    if b :| b in c.backups && StuckRun(now, c, b, s.key) && BelongsToTenant(c, s.key.namespace, s.tenant) {
      assert Stuck(now, b) && FoldSeries(c, b) == s;
    }
  }

  lemma StalledExactly(now: real, c: Cluster, s: Series)
    ensures s in StalledFold(now, c) <==> exists b <- c.backups :: Stuck(now, b) && FoldSeries(c, b) == s
  {
    var keyOf := b => FoldSeries(c, b);
    OldestIsOldest(c.backups, keyOf, false);
    AgedExactly(now, c.backups, keyOf, Oldest(c.backups, keyOf, false), s);
  }

  /** More runs, of any age, never silence a breach. */
  lemma NewerRunsNeverHideAStall(now: real, c: Cluster, more: seq<Backup>)
    ensures StalledFold(now, c).Keys <= StalledFold(now, c.(backups := c.backups + more)).Keys
  {
    var d := c.(backups := c.backups + more);
    forall s | s in StalledFold(now, c) ensures s in StalledFold(now, d) {
      StalledExactly(now, c, s);
      StalledExactly(now, d, s);
      var b :| b in c.backups && Stuck(now, b) && FoldSeries(c, b) == s;
      assert b in d.backups && FoldSeries(d, b) == s;
    }
  }

  /** Adding runs only raises a series' last success. */
  lemma MoreRunsOnlyRaiseTheLatest(bs: seq<Backup>, more: seq<Backup>, keyOf: Backup -> Series)
    ensures var v := Latest(bs, keyOf, false); var w := Latest(bs + more, keyOf, false);
      forall s <- v :: s in w && v[s] <= w[s]
  {
    LatestIsLatest(bs, keyOf, false);
    LatestIsLatest(bs + more, keyOf, false);
    var v := Latest(bs, keyOf, false);
    forall s | s in v ensures s in Latest(bs + more, keyOf, false) && v[s] <= Latest(bs + more, keyOf, false)[s] {
      var b :| b in bs && IsSuccess(b) && keyOf(b) == s && b.backupTime.value == v[s];
      assert b in bs + more;
    }
  }

  // ---- The stall alert's query ----

  /** time() - in_progress_since > bound, over what the collector shows. */
  function StallQuery(now: real, c: Cluster): Vector {
    StaleExpr(STALLED, now, Oldest(c.backups, b => ScrapeSeries(c, b), true))
  }

  lemma StallQueryFiresExactly(now: real, c: Cluster, s: Series)
    requires ModernTimes(c.backups)
    ensures s in StallQuery(now, c) <==> exists b <- c.backups :: Stuck(now, b) && ScrapeSeries(c, b) == s
  {
    var keyOf := b => ScrapeSeries(c, b);
    OldestIsOldest(c.backups, keyOf, true);
    AgedExactly(now, c.backups, keyOf, Oldest(c.backups, keyOf, true), s);
  }

  /** On the five join labels the stall query and the fold agree for every cluster, whatever its tenants. */
  lemma StallQueryAgreesOnKeys(now: real, c: Cluster)
    requires ModernTimes(c.backups)
    ensures Keys(StallQuery(now, c)) == Keys(StalledFold(now, c))
  {
    forall k: Key ensures k in Keys(StallQuery(now, c)) <==> k in Keys(StalledFold(now, c)) {
      if k in Keys(StallQuery(now, c)) {
        var s :| s in StallQuery(now, c) && s.key == k;
        StallQueryFiresExactly(now, c, s);
        var b :| b in c.backups && Stuck(now, b) && ScrapeSeries(c, b) == s;
        StalledExactly(now, c, FoldSeries(c, b));
      }
      if k in Keys(StalledFold(now, c)) {
        var s :| s in StalledFold(now, c) && s.key == k;
        StalledExactly(now, c, s);
        var b :| b in c.backups && Stuck(now, b) && FoldSeries(c, b) == s;
        StallQueryFiresExactly(now, c, ScrapeSeries(c, b));
      }
    }
  }

  /** Every stuck run carries the tenant its namespace resolves to. */
  predicate StuckTenantsAgree(now: real, c: Cluster) {
    forall b <- c.backups :: Stuck(now, b) ==> ScrapeSeries(c, b) == FoldSeries(c, b)
  }

  lemma OldestRun(bs: seq<Backup>, keyOf: Backup -> Series, gated: bool, s: Series) returns (b: Backup)
    requires gated ==> ModernTimes(bs)
    requires s in Oldest(bs, keyOf, gated)
    ensures b in bs && InFlight(b) && keyOf(b) == s && b.created == Oldest(bs, keyOf, gated)[s]
  {
    OldestIsOldest(bs, keyOf, gated);
    b :| b in bs && InFlight(b) && keyOf(b) == s && b.created == Oldest(bs, keyOf, gated)[s];
  }

  lemma NoOlder(bs: seq<Backup>, keyOf: Backup -> Series, gated: bool, b: Backup)
    requires gated ==> ModernTimes(bs)
    requires b in bs && InFlight(b)
    ensures keyOf(b) in Oldest(bs, keyOf, gated) && Oldest(bs, keyOf, gated)[keyOf(b)] <= b.created
  {
    OldestIsOldest(bs, keyOf, gated);
  }

  lemma SameAge(now: real, c: Cluster, s: Series)
    requires ModernTimes(c.backups) && StuckTenantsAgree(now, c) && s in StallQuery(now, c) && s in StalledFold(now, c)
    ensures StallQuery(now, c)[s] == StalledFold(now, c)[s]
  {
    var q := b => ScrapeSeries(c, b);
    var f := b => FoldSeries(c, b);
    var b := OldestRun(c.backups, q, true, s);
    var d := OldestRun(c.backups, f, false, s);
    assert Stuck(now, b) && Stuck(now, d);
    NoOlder(c.backups, q, true, d);
    NoOlder(c.backups, f, false, b);
  }

  /** The fold has one tenant a key. */
  lemma FoldTenant(now: real, c: Cluster, s: Series)
    requires s in StalledFold(now, c)
    ensures s.tenant == TenantOf(c, s.key.namespace)
  {
    StalledExactly(now, c, s);
  }

  /** With all six labels and the ages, the two are the same vector exactly when every stuck run carries
      its namespace's tenant. */
  lemma StallQueryEqualsFoldExactly(now: real, c: Cluster)
    requires ModernTimes(c.backups)
    ensures StallQuery(now, c) == StalledFold(now, c) <==> StuckTenantsAgree(now, c)
  {
    var v, w := StallQuery(now, c), StalledFold(now, c);
    if StuckTenantsAgree(now, c) {
      forall s: Series ensures (s in v <==> s in w) && (s in v ==> v[s] == w[s]) {
        StallQueryFiresExactly(now, c, s);
        StalledExactly(now, c, s);
        if s in v && s in w { SameAge(now, c, s); }
      }
      assert v.Keys == w.Keys;
    }
    if b :| b in c.backups && Stuck(now, b) && ScrapeSeries(c, b) != FoldSeries(c, b) {
      StallQueryFiresExactly(now, c, ScrapeSeries(c, b));
      if ScrapeSeries(c, b) in w { FoldTenant(now, c, ScrapeSeries(c, b)); }
      assert ScrapeSeries(c, b) in v && ScrapeSeries(c, b) !in w;
    }
  }

  // ---- The cluster's identity ----

  datatype Location = Location(name: string, clusterId: string, isDefault: bool)

  /** The identity so far: the last default's, and the consensus of the others. */
  datatype Tally = Tally(defaultId: string, consensus: string, agreed: bool)

  function Count(t: Tally, l: Location): Tally {
    Tally(if l.isDefault && l.clusterId != "" then l.clusterId else t.defaultId,
          if l.clusterId != "" && t.consensus == "" then l.clusterId else t.consensus,
          t.agreed && (l.clusterId == "" || t.consensus == "" || t.consensus == l.clusterId))
  }

  function TallyOf(ls: seq<Location>): Tally {
    if ls == [] then Tally("", "", true) else Count(TallyOf(ls[..|ls| - 1]), ls[|ls| - 1])
  }

  function Settle(t: Tally): string {
    if t.defaultId != "" then t.defaultId else if t.agreed then t.consensus else ""
  }

  function Identity(ls: seq<Location>): string { Settle(TallyOf(ls)) }

  function IdsOf(ls: seq<Location>): map<string, string> {
    if ls == [] then map[] else IdsOf(ls[..|ls| - 1])[ls[|ls| - 1].name := ls[|ls| - 1].clusterId]
  }

  /** With unique names, each location's name leads to its cluster. */
  lemma {:induction false} IdsAreTheLocations(ls: seq<Location>, l: Location)
    requires l in ls && forall a <- ls, b <- ls :: a.name == b.name ==> a == b
    ensures l.name in IdsOf(ls) && IdsOf(ls)[l.name] == l.clusterId
  {
    var n := |ls| - 1;
    assert ls == ls[..n] + [ls[n]];
    assert forall a <- ls[..n] :: a in ls;
    if l != ls[n] { IdsAreTheLocations(ls[..n], l); }
  }

  method ClusterIdentities(ls: seq<Location>) returns (ids: map<string, string>, id: string)
    ensures id == Identity(ls)
    ensures ids == IdsOf(ls)
  {
    ids := map[];
    var defaultId, consensus, agreed := "", "", true;
    for i := 0 to |ls|
      invariant TallyOf(ls[..i]) == Tally(defaultId, consensus, agreed)
      invariant ids == IdsOf(ls[..i])
    {
      var l := ls[i];
      assert ls[..i + 1][..i] == ls[..i];
      ids := ids[l.name := l.clusterId];
      if l.isDefault && l.clusterId != "" { defaultId := l.clusterId; }
      if l.clusterId == "" {
      } else if consensus == "" {
        consensus := l.clusterId;
      } else if consensus != l.clusterId {
        agreed := false;
      }
    }
    assert ls[..|ls|] == ls;
    if defaultId != "" { return ids, defaultId; }
    if agreed { return ids, consensus; }
    return ids, "";
  }

  /** A default location that says which cluster this is. */
  predicate Claims(l: Location) { l.isDefault && l.clusterId != "" }

  predicate DefaultsAgree(ls: seq<Location>) {
    forall a <- ls, b <- ls :: Claims(a) && Claims(b) ==> a.clusterId == b.clusterId
  }

  /** What the tally says about the locations it has seen, in no order. */
  predicate TallyFits(ls: seq<Location>, t: Tally) {
    && (t.defaultId == "" <==> forall l <- ls :: !Claims(l))
    && (t.defaultId != "" ==> exists l <- ls :: Claims(l) && l.clusterId == t.defaultId)
    && (t.consensus == "" <==> forall l <- ls :: l.clusterId == "")
    && (t.consensus != "" ==> exists l <- ls :: l.clusterId == t.consensus)
    && (t.agreed <==> forall l <- ls :: l.clusterId == "" || l.clusterId == t.consensus)
  }

  lemma {:induction false} TallyIsFit(ls: seq<Location>)
    ensures TallyFits(ls, TallyOf(ls))
  {
    if ls != [] {
      var n := |ls| - 1;
      var l := ls[n];
      assert ls == ls[..n] + [l];
      TallyIsFit(ls[..n]);
      CountFits(ls[..n], l, TallyOf(ls[..n]));
    }
  }

  lemma CountFits(ls: seq<Location>, l: Location, t: Tally)
    requires TallyFits(ls, t)
    ensures TallyFits(ls + [l], Count(t, l))
  {
    var u := Count(t, l);
    var all := ls + [l];
    assert l in all && forall x <- ls :: x in all;
    forall x | x in all ensures x in ls || x == l { }
    if t.consensus != "" {
      var x :| x in ls && x.clusterId == t.consensus;
      assert x in all;
    }
  }

  /** What the identity is: the cluster the claiming defaults agree on; for want of one, the cluster all
      locations that name any agree on; and nothing otherwise. */
  lemma IdentityIs(ls: seq<Location>)
    ensures DefaultsAgree(ls) ==> forall l <- ls :: Claims(l) ==> Identity(ls) == l.clusterId
    ensures (exists l <- ls :: Claims(l)) ==> exists l <- ls :: Claims(l) && Identity(ls) == l.clusterId
    ensures (forall l <- ls :: !Claims(l)) ==>
      if forall a <- ls, b <- ls :: a.clusterId != "" && b.clusterId != "" ==> a.clusterId == b.clusterId
      then (Identity(ls) == "" <==> forall l <- ls :: l.clusterId == "")
           && forall l <- ls :: l.clusterId != "" ==> Identity(ls) == l.clusterId
      else Identity(ls) == ""
  {
    TallyIsFit(ls);
    var t := TallyOf(ls);
    if forall l <- ls :: !Claims(l) {
      if t.agreed {
        assert forall l <- ls :: l.clusterId == "" || l.clusterId == t.consensus;
      } else {
        var l :| l in ls && l.clusterId != "" && l.clusterId != t.consensus;
        var m :| m in ls && m.clusterId == t.consensus;
      }
    }
  }

  /** A list with its i-th element moved to the end. */
  function MovedLast(ls: seq<Location>, i: nat): seq<Location>
    requires i < |ls|
  {
    ls[..i] + ls[i + 1..] + [ls[i]]
  }

  lemma MovedLastDecides(ls: seq<Location>, i: nat)
    requires i < |ls| && Claims(ls[i])
    ensures Identity(MovedLast(ls, i)) == ls[i].clusterId
    ensures multiset(MovedLast(ls, i)) == multiset(ls)
  {
    var init := ls[..i] + ls[i + 1..];
    assert MovedLast(ls, i)[..|ls| - 1] == init;
    assert ls == ls[..i] + [ls[i]] + ls[i + 1..];
  }

  /** The identity does not depend on the order of the list exactly when the locations that claim to be
      the default name one cluster; in particular with at most one default. */
  lemma IdentityIsOrderFreeExactly(ls: seq<Location>)
    ensures DefaultsAgree(ls) <==>
      forall ms: seq<Location> :: multiset(ms) == multiset(ls) ==> Identity(ms) == Identity(ls)
  {
    if DefaultsAgree(ls) {
      forall ms: seq<Location> | multiset(ms) == multiset(ls) ensures Identity(ms) == Identity(ls) {
        AgreedIdentity(ls, ms);
      }
    } else {
      var a, b :| a in ls && b in ls && Claims(a) && Claims(b) && a.clusterId != b.clusterId;
      var i :| 0 <= i < |ls| && ls[i] == a;
      var j :| 0 <= j < |ls| && ls[j] == b;
      MovedLastDecides(ls, i);
      MovedLastDecides(ls, j);
      assert Identity(MovedLast(ls, i)) != Identity(MovedLast(ls, j));
    }
  }

  lemma AgreedIdentity(ls: seq<Location>, ms: seq<Location>)
    requires DefaultsAgree(ls) && multiset(ms) == multiset(ls)
    ensures Identity(ms) == Identity(ls)
  {
    TallyIsFit(ls);
    TallyIsFit(ms);
    forall l ensures l in ls <==> l in ms {
      assert l in ls <==> l in multiset(ls);
      assert l in ms <==> l in multiset(ms);
    }
  }
}
