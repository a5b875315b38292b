/** The missed-backup alert, written twice: as an expression over the scraped series and as a fold
    over the cluster objects. When do the two fire on the same series? */
module MissedBackup {
  import opened Prelude
  import opened PromQL
  import opened BackupPass
  import opened ClusterState

  // ---- The fold ----

  function Since(last: Vector, s: Series, timing: Timing): real { if s in last then last[s] else timing.created }

  function Deadline(t: Threshold, timing: Timing): real {
    if timing.period.Some? then timing.period.value * t.factor + t.grace else t.age
  }

  predicate Late(t: Threshold, now: real, since: real, timing: Timing) { now - since > Deadline(t, timing) }

  function Missed(t: Threshold, now: real, active: map<Series, Timing>, last: Vector): Vector {
    map s <- active | Late(t, now, Since(last, s, active[s]), active[s]) :: now - Since(last, s, active[s])
  }

  function MissedFold(t: Threshold, now: real, c: Cluster): Vector {
    Missed(t, now, FirstWins(Declared(c), true), Latest(c.backups, b => FoldSeries(c, b), false))
  }

  /** Records one entry, unless it is paused or its series is taken. */
  method Record(active: map<Series, Timing>, e: Entry) returns (r: map<Series, Timing>)
    ensures r == if e.series in active || e.timing.paused then active else active[e.series := e.timing]
  {
    r := active;
    if e.timing.paused { return; }
    if e.series !in active { r := active[e.series := e.timing]; }
  }

  method ActiveSchedules(c: Cluster) returns (active: map<Series, Timing>)
    ensures active == FirstWins(ScheduleEntries(c, c.schedules), true)
  {
    active := map[];
    for i := 0 to |c.schedules|
      invariant active == FirstWins(ScheduleEntries(c, c.schedules[..i]), true)
    {
      var before := c.schedules[..i];
      var upTo := c.schedules[..i + 1];
      assert upTo[..i] == before;
      var e := ScheduleEntry(c, c.schedules[i]);
      assert ScheduleEntries(c, upTo) == ScheduleEntries(c, before) + [e];
      FirstWinsOne(ScheduleEntries(c, before), e, true);
      active := Record(active, e);
    }
    assert c.schedules[..|c.schedules|] == c.schedules;
  }

  lemma FirstWinsOne(es: seq<Entry>, e: Entry, live: bool)
    ensures var m := FirstWins(es, live);
      FirstWins(es + [e], live) == if e.series in m || (live && e.timing.paused) then m else m[e.series := e.timing]
  {
    assert (es + [e])[..|es|] == es;
  }

  /** A paused cluster schedule adds nothing, whatever it selects. */
  lemma {:induction false} PausedFanOutAddsNothing(c: Cluster, es: seq<Entry>, s: ClusterSchedule, names: seq<string>)
    requires s.paused
    ensures FirstWins(es + FanOut(c, s, names), true) == FirstWins(es, true)
    decreases |names|
  {
    if names == [] {
      assert es + FanOut(c, s, names) == es;
    } else {
      var init := names[..|names| - 1];
      var e := FanOutEntry(c, s, names[|names| - 1]);
      assert es + FanOut(c, s, names) == es + FanOut(c, s, init) + [e];
      FirstWinsOne(es + FanOut(c, s, init), e, true);
      PausedFanOutAddsNothing(c, es, s, init);
    }
  }

  method AddFanOut(c: Cluster, s: ClusterSchedule, ghost es: seq<Entry>, start: map<Series, Timing>)
    returns (active: map<Series, Timing>)
    requires start == FirstWins(es, true)
    ensures active == FirstWins(es + EntriesOf(c, s), true)
  {
    active := start;
    if s.matched.None? {
      assert es + EntriesOf(c, s) == es;
      return;
    }
    if s.paused {
      PausedFanOutAddsNothing(c, es, s, s.matched.value);
      return;
    }
    var names := s.matched.value;
    assert es + FanOut(c, s, names[..0]) == es;
    for i := 0 to |names|
      invariant active == FirstWins(es + FanOut(c, s, names[..i]), true)
    {
      assert names[..i + 1][..i] == names[..i];
      var e := FanOutEntry(c, s, names[i]);
      assert es + FanOut(c, s, names[..i + 1]) == es + FanOut(c, s, names[..i]) + [e];
      FirstWinsOne(es + FanOut(c, s, names[..i]), e, true);
      active := Record(active, e);
    }
    assert names[..|names|] == names;
  }

  lemma ClusterEntriesNext(c: Cluster, base: seq<Entry>, ss: seq<ClusterSchedule>, i: nat)
    requires i < |ss|
    ensures base + ClusterEntries(c, ss[..i + 1]) == base + ClusterEntries(c, ss[..i]) + EntriesOf(c, ss[i])
  {
    assert ss[..i + 1][..i] == ss[..i];
  }

  method AllActive(c: Cluster) returns (active: map<Series, Timing>)
    ensures active == FirstWins(Declared(c), true)
  {
    active := ActiveSchedules(c);
    ghost var base := ScheduleEntries(c, c.schedules);
    var n := |c.clusterSchedules|;
    assert base + ClusterEntries(c, c.clusterSchedules[..0]) == base;
    for i := 0 to n
      invariant active == FirstWins(base + ClusterEntries(c, c.clusterSchedules[..i]), true)
    {
      var s := c.clusterSchedules[i];
      ClusterEntriesNext(c, base, c.clusterSchedules, i);
      active := AddFanOut(c, s, base + ClusterEntries(c, c.clusterSchedules[..i]), active);
    }
    assert c.clusterSchedules[..n] == c.clusterSchedules;
  }

  method LastSuccesses(c: Cluster) returns (last: Vector)
    ensures last == Latest(c.backups, b => FoldSeries(c, b), false)
  {
    last := map[];
    var keyOf := b => FoldSeries(c, b);
    for i := 0 to |c.backups|
      invariant last == Latest(c.backups[..i], keyOf, false)
    {
      var b := c.backups[i];
      assert c.backups[..i + 1][..i] == c.backups[..i];
      if !b.phase.Succeeded() { continue; }
      if b.backupTime.None? { continue; }
      var key := keyOf(b);
      if key in last && b.backupTime.value <= last[key] { continue; }
      last := last[key := b.backupTime.value];
    }
    assert c.backups[..|c.backups|] == c.backups;
  }

  method Judge(t: Threshold, now: real, last: Vector, key: Series, timing: Timing) returns (late: bool, elapsed: real)
    ensures elapsed == now - Since(last, key, timing)
    ensures late <==> Late(t, now, Since(last, key, timing), timing)
  {
    var since := timing.created;
    if key in last { since := last[key]; }
    elapsed := now - since;
    var deadline := t.age;
    if timing.period.Some? { deadline := timing.period.value * t.factor + t.grace; }
    late := elapsed > deadline;
  }

  method Breaches(t: Threshold, now: real, active: map<Series, Timing>, last: Vector) returns (out: Vector)
    ensures out == Missed(t, now, active, last)
  {
    out := map[];
    var rest := active.Keys;
    while rest != {}
      invariant rest <= active.Keys
      invariant forall s :: s in out <==> s in Missed(t, now, active, last) && s !in rest
      invariant forall s <- out :: out[s] == Missed(t, now, active, last)[s]
      decreases |rest|
    {
      var key :| key in rest;
      var late, elapsed := Judge(t, now, last, key, active[key]);
      if late { out := out[key := elapsed]; }
      rest := rest - {key};
    }
  }

  /** The self-check's fold: which series are breached, and by how many seconds of silence. */
  method BackupMissedAgainst(c: Cluster, now: real, t: Threshold) returns (breaches: Vector)
    ensures breaches == MissedFold(t, now, c)
  {
    var active := AllActive(c);
    var last := LastSuccesses(c);
    breaches := Breaches(t, now, active, last);
  }

  // ---- What each side fires on ----

  /** An unpaused schedule of either plane declares this key with this timing. */
  ghost predicate Live(c: Cluster, k: Key, timing: Timing) { DeclaredBy(c, k, timing) && !timing.paused }

  lemma LiveHasEntry(c: Cluster, k: Key, timing: Timing)
    ensures Live(c, k, timing) <==> exists e <- Declared(c) :: e.series.key == k && e.timing == timing && !timing.paused
  {
    if Live(c, k, timing) {
      var e := Entry(Series(k, TenantOf(c, k.namespace)), timing);
      DeclaredExactly(c, e);
      assert e in Declared(c);
    }
    if e :| e in Declared(c) && e.series.key == k && e.timing == timing && !timing.paused { DeclaredExactly(c, e); }
  }

  /** A success of this key was recorded at this time. */
  ghost predicate SucceededAt(c: Cluster, k: Key, at: real) { exists b <- c.backups :: SuccessOf(c, b, k, at) }

  lemma SuccessIs(c: Cluster, b: Backup, k: Key, at: real)
    ensures SuccessOf(c, b, k, at) <==> IsSuccess(b) && KeyOf(c, b) == k && b.backupTime.value == at
  {
  }

  lemma SuccessCounts(c: Cluster, b: Backup)
    requires b in c.backups && IsSuccess(b)
    ensures SucceededAt(c, KeyOf(c, b), b.backupTime.value)
  {
    assert SuccessOf(c, b, KeyOf(c, b), b.backupTime.value);
  }

  lemma SuccessOfKey(c: Cluster, k: Key, at: real) returns (b: Backup)
    requires SucceededAt(c, k, at)
    ensures b in c.backups && IsSuccess(b) && KeyOf(c, b) == k && b.backupTime.value == at
  {
    b :| b in c.backups && SuccessOf(c, b, k, at);
  }

  /** The fold fires on a key exactly when a live schedule declares it and, at its deadline, every
      recorded success is too old; with none recorded the schedule's creation has to be. */
  ghost predicate AllTooOld(t: Threshold, now: real, c: Cluster, k: Key, timing: Timing) {
    && (forall at :: SucceededAt(c, k, at) ==> Late(t, now, at, timing))
    && ((exists at :: SucceededAt(c, k, at)) || Late(t, now, timing.created, timing))
  }

  /** One tenant's successes of a key are all too old, and there are some. */
  ghost predicate GroupTooOld(t: Threshold, now: real, c: Cluster, s: Series, timing: Timing) {
    && (exists b <- c.backups, at: real :: SuccessOf(c, b, s.key, at) && LabelledWith(b, s.tenant))
    && forall b <- c.backups, at: real :: SuccessOf(c, b, s.key, at) && LabelledWith(b, s.tenant) ==> Late(t, now, at, timing)
  }

  lemma GroupIsOfSeries(t: Threshold, now: real, c: Cluster, s: Series, timing: Timing)
    ensures GroupTooOld(t, now, c, s, timing) <==>
      && (exists b <- c.backups :: IsSuccess(b) && ScrapeSeries(c, b) == s)
      && forall b <- c.backups :: IsSuccess(b) && ScrapeSeries(c, b) == s ==> Late(t, now, b.backupTime.value, timing)
  {
    forall b | b in c.backups && IsSuccess(b) && ScrapeSeries(c, b) == s
      ensures SuccessOf(c, b, s.key, b.backupTime.value) && LabelledWith(b, s.tenant)
    {
    }
    forall b, at: real | b in c.backups && SuccessOf(c, b, s.key, at) && LabelledWith(b, s.tenant)
      ensures IsSuccess(b) && ScrapeSeries(c, b) == s && b.backupTime.value == at
    {
    }
  }

  lemma TenantFollowsNamespace(c: Cluster, s: Series, u: Series)
    requires UniqueNames(c)
    requires s in FirstWins(Declared(c), true) || s in FirstWins(Declared(c), false)
    requires u in FirstWins(Declared(c), true) || u in FirstWins(Declared(c), false)
    requires s.key == u.key
    ensures s == u
  {
    DeclaredIsConsistent(c);
    FirstWinsFits(Declared(c), true);
    FirstWinsFits(Declared(c), false);
    var e :| e in Declared(c) && e.series == s;
    var f :| f in Declared(c) && f.series == u;
  }

  lemma FoldFiresExactly(t: Threshold, now: real, c: Cluster, k: Key)
    requires UniqueNames(c)
    ensures k in Keys(MissedFold(t, now, c)) <==> exists timing :: Live(c, k, timing) && AllTooOld(t, now, c, k, timing)
  {
    var active := FirstWins(Declared(c), true);
    forall s | s in active && s.key == k
      ensures s in MissedFold(t, now, c) <==> AllTooOld(t, now, c, k, active[s])
    {
      DeclaredTenant(c, s, true);
      FoldFiresOn(t, now, c, s, active[s]);
    }
    if k in Keys(MissedFold(t, now, c)) {
      var s :| s in MissedFold(t, now, c) && s.key == k;
      LiveIsActive(c, k, active[s]);
    }
    if timing :| Live(c, k, timing) && AllTooOld(t, now, c, k, timing) {
      LiveIsActive(c, k, timing);
      var s :| s in active && s.key == k && active[s] == timing;
    }
  }

  /** The live declarations are what the fold keeps of them. */
  lemma LiveIsActive(c: Cluster, k: Key, timing: Timing)
    requires UniqueNames(c)
    ensures var active := FirstWins(Declared(c), true);
      Live(c, k, timing) <==> exists s <- active :: s.key == k && active[s] == timing
  {
    var active := FirstWins(Declared(c), true);
    DeclaredIsConsistent(c);
    FirstWinsFits(Declared(c), true);
    LiveHasEntry(c, k, timing);
    if Live(c, k, timing) {
      var e :| e in Declared(c) && e.series.key == k && e.timing == timing && !timing.paused;
      assert Entry(e.series, active[e.series]) in Declared(c);
    }
    if s :| s in active && s.key == k && active[s] == timing {
      var e := Entry(s, active[s]);
      assert e in Declared(c);
    }
  }

  /** The bounds of the two alerts: an hour past 1.1 or three periods, or 26 or 74 hours without one. */
  lemma BoundsOfTheAlerts(now: real, since: real, timing: Timing)
    ensures Late(WARNING, now, since, timing) <==>
      now - since > (if timing.period.Some? then 1.1 * timing.period.value + 3600.0 else 93600.0)
    ensures Late(CRITICAL, now, since, timing) <==>
      now - since > (if timing.period.Some? then 3.0 * timing.period.value + 3600.0 else 266400.0)
  {
  }

  /** What the fold reports of a series it fires on: its tenant is the namespace's, and its age counts from the
      last success, or from the schedule's creation for want of one. */
  lemma FoldReportsExactly(t: Threshold, now: real, c: Cluster, s: Series) returns (timing: Timing)
    requires UniqueNames(c) && s in MissedFold(t, now, c)
    ensures BelongsToTenant(c, s.key.namespace, s.tenant) && Live(c, s.key, timing)
    ensures var since := now - MissedFold(t, now, c)[s];
      && ((forall at :: !SucceededAt(c, s.key, at)) ==> since == timing.created)
      && ((exists at :: SucceededAt(c, s.key, at)) ==>
            SucceededAt(c, s.key, since) && forall at :: SucceededAt(c, s.key, at) ==> at <= since)
  {
    var active := FirstWins(Declared(c), true);
    timing := active[s];
    DeclaredTenant(c, s, true);
    LiveIsActive(c, s.key, timing);
    SinceExactly(c, s, timing);
  }

  lemma SinceExactly(c: Cluster, s: Series, timing: Timing)
    requires s.tenant == TenantOf(c, s.key.namespace)
    ensures var since := Since(Latest(c.backups, b => FoldSeries(c, b), false), s, timing);
      && ((forall at :: !SucceededAt(c, s.key, at)) ==> since == timing.created)
      && ((exists at :: SucceededAt(c, s.key, at)) ==>
            SucceededAt(c, s.key, since) && forall at :: SucceededAt(c, s.key, at) ==> at <= since)
  {
    var keyOf := b => FoldSeries(c, b);
    var last := Latest(c.backups, keyOf, false);
    LatestIsLatest(c.backups, keyOf, false);
    forall at | SucceededAt(c, s.key, at) ensures s in last && at <= last[s] {
      var b := SuccessOfKey(c, s.key, at);
      assert keyOf(b) == s;
    }
    if s in last {
      var b :| b in c.backups && IsSuccess(b) && keyOf(b) == s && b.backupTime.value == last[s];
      SuccessCounts(c, b);
    }
  }

  lemma FoldFiresOn(t: Threshold, now: real, c: Cluster, s: Series, timing: Timing)
    requires s.tenant == TenantOf(c, s.key.namespace)
    ensures Late(t, now, Since(Latest(c.backups, b => FoldSeries(c, b), false), s, timing), timing)
            <==> AllTooOld(t, now, c, s.key, timing)
  {
    SinceExactly(c, s, timing);
  }

  // ---- The query ----

  lemma PeriodIsOneSided(c: Cluster)
    requires UniqueNames(c)
    ensures OneSided(Collect(c).period)
  {
    var p := Collect(c).period;
    forall s, u | s in p && u in p && s.key == u.key ensures s == u {
      TenantFollowsNamespace(c, s, u);
    }
  }

  /** The right sides of the joins carry one series a key, so the evaluation never fails. */
  lemma QueryNeverFails(t: Threshold, now: real, c: Cluster)
    requires UniqueNames(c)
    ensures MissedExpr(t, now, Collect(c)).Some?
  {
    PeriodIsOneSided(c);
  }

  /** What the collector shows for the series an entry declares. */
  lemma ScrapeShowsEntry(c: Cluster, s: Series)
    requires UniqueNames(c)
    ensures var m := Collect(c); var d := FirstWins(Declared(c), false);
      && (HasKey(m.created, s.key) <==> exists u <- d :: u.key == s.key)
      && (HasKey(EqualTo(m.active, 1.0), s.key) <==> exists u <- d :: u.key == s.key && !d[u].paused)
      && (HasKey(m.period, s.key) <==> exists u <- d :: u.key == s.key && d[u].period.Some?)
  {
    var m := Collect(c);
    var d := FirstWins(Declared(c), false);
    if u :| u in d && u.key == s.key { assert u in m.created; }
    if u :| u in d && u.key == s.key && !d[u].paused { assert u in EqualTo(m.active, 1.0); }
    if u :| u in d && u.key == s.key && d[u].period.Some? { assert u in m.period; }
  }

  /** The value the joins compare a key's age with. */
  ghost predicate PastBound(t: Threshold, m: Scrape, k: Key, age: real) {
    if HasKey(m.period, k) then exists u <- m.period :: u.key == k && age > m.period[u] * t.factor + t.grace
    else age > t.age
  }

  /** Some series of this key is below x. */
  ghost predicate SomeBelow(b: Vector, k: Key, x: real) { exists u <- b :: u.key == k && x > b[u] }

  lemma AboveOnSome(a: Vector, b: Vector, s: Series)
    requires OneSided(b)
    ensures var r := AboveOn(a, b);
      && r.Some?
      && (s in r.value <==> s in a && SomeBelow(b, s.key, a[s]))
      && (s in r.value ==> r.value[s] == a[s])
  {
  }

  lemma ScaledBound(t: Threshold, m: Scrape, k: Key, x: real)
    ensures SomeBelow(Affine(m.period, t.factor, t.grace), k, x) <==> HasKey(m.period, k) && PastBound(t, m, k, x)
  {
    var p := Affine(m.period, t.factor, t.grace);
    if SomeBelow(p, k, x) {
      var u :| u in p && u.key == k && x > p[u];
      assert u in m.period;
    }
    if HasKey(m.period, k) && PastBound(t, m, k, x) {
      var u :| u in m.period && u.key == k && x > m.period[u] * t.factor + t.grace;
      assert u in p;
    }
  }

  lemma DerivedOn(t: Threshold, m: Scrape, age: Vector, s: Series)
    requires OneSided(m.period)
    ensures var r := AboveOn(age, Affine(m.period, t.factor, t.grace));
      && r.Some?
      && (s in r.value <==> s in age && HasKey(m.period, s.key) && PastBound(t, m, s.key, age[s]))
      && (s in r.value ==> r.value[s] == age[s])
  {
    var p := Affine(m.period, t.factor, t.grace);
    assert p.Keys == m.period.Keys;
    AboveOnSome(age, p, s);
    if s in age { ScaledBound(t, m, s.key, age[s]); }
  }

  lemma FallbackOn(t: Threshold, m: Scrape, age: Vector, s: Series)
    ensures var r := UnlessOn(Above(age, t.age), m.period);
      && (s in r <==> s in age && !HasKey(m.period, s.key) && PastBound(t, m, s.key, age[s]))
      && (s in r ==> r[s] == age[s])
  {
  }

  lemma ExprOn(t: Threshold, now: real, m: Scrape, s: Series)
    requires OneSided(m.period)
    ensures MissedExpr(t, now, m).Some?
    ensures var age := LastSeen(now, m); var v := MissedExpr(t, now, m).value;
      && (s in v <==> s in age && HasKey(EqualTo(m.active, 1.0), s.key) && PastBound(t, m, s.key, age[s]))
      && (s in v ==> v[s] == age[s])
  {
    var age := LastSeen(now, m);
    DerivedOn(t, m, age, s);
    FallbackOn(t, m, age, s);
    var derived := AboveOn(age, Affine(m.period, t.factor, t.grace)).value;
    var fallback := UnlessOn(Above(age, t.age), m.period);
    OrAndOn(derived, fallback, EqualTo(m.active, 1.0), s);
  }

  lemma OrAndOn(a: Vector, b: Vector, g: Vector, s: Series)
    ensures var v := AndOn(Or(a, b), g);
      && (s in v <==> (s in a || s in b) && HasKey(g, s.key))
      && (s in v ==> v[s] == if s in a then a[s] else b[s])
  {
  }

  lemma BoundIsDeadline(t: Threshold, c: Cluster, u: Series, age: real)
    requires UniqueNames(c) && u in FirstWins(Declared(c), false)
    ensures PastBound(t, Collect(c), u.key, age) <==> age > Deadline(t, FirstWins(Declared(c), false)[u])
  {
    var p := Collect(c).period;
    var d := FirstWins(Declared(c), false);
    forall x | x in p && x.key == u.key ensures x == u {
      assert x in d;
      TenantFollowsNamespace(c, x, u);
    }
    if d[u].period.Some? { assert u in p && p[u] == d[u].period.value; }
  }

  /** With the one timing its key is declared with, the query's verdict on a series is a comparison of
      that series' age with the deadline. */
  lemma QueryOnLive(t: Threshold, now: real, c: Cluster, s: Series, u: Series)
    requires UniqueNames(c)
    requires u in FirstWins(Declared(c), false) && u.key == s.key && !FirstWins(Declared(c), false)[u].paused
    ensures MissedExpr(t, now, Collect(c)).Some?
    ensures var age := LastSeen(now, Collect(c)); var v := MissedExpr(t, now, Collect(c)).value;
      && (s in v <==> s in age && age[s] > Deadline(t, FirstWins(Declared(c), false)[u]))
      && (s in v ==> v[s] == age[s])
  {
    ScrapeShowsEntry(c, s);
    PeriodIsOneSided(c);
    var m := Collect(c);
    assert HasKey(EqualTo(m.active, 1.0), s.key);
    ExprOn(t, now, m, s);
    if s in LastSeen(now, m) { BoundIsDeadline(t, c, u, LastSeen(now, m)[s]); }
  }

  lemma QuerySilentOnOthers(t: Threshold, now: real, c: Cluster, s: Series)
    requires UniqueNames(c)
    requires forall u <- FirstWins(Declared(c), false) :: u.key == s.key ==> FirstWins(Declared(c), false)[u].paused
    ensures MissedExpr(t, now, Collect(c)).Some? && s !in MissedExpr(t, now, Collect(c)).value
  {
    PeriodIsOneSided(c);
    ExprOn(t, now, Collect(c), s);
    ScrapeShowsEntry(c, s);
  }

  lemma LiveIsDeclared(c: Cluster, k: Key, timing: Timing)
    requires UniqueNames(c)
    ensures var d := FirstWins(Declared(c), false);
      Live(c, k, timing) <==> exists u <- d :: u.key == k && d[u] == timing && !timing.paused
  {
    var d := FirstWins(Declared(c), false);
    LiveIsActive(c, k, timing);
    var active := FirstWins(Declared(c), true);
    if s :| s in active && s.key == k && active[s] == timing { LiveInBoth(c, s); }
    if u :| u in d && u.key == k && d[u] == timing && !timing.paused { LiveInBoth(c, u); }
  }

  /** The scraped last success of a series is late exactly when all of its tenant's successes are. */
  lemma ScrapedSuccess(t: Threshold, now: real, c: Cluster, s: Series, timing: Timing)
    requires ModernTimes(c.backups)
    ensures var v := Collect(c).lastSuccess;
      (s in v && Late(t, now, v[s], timing)) <==> GroupTooOld(t, now, c, s, timing)
  {
    var keyOf := b => ScrapeSeries(c, b);
    LatestIsLatest(c.backups, keyOf, true);
    var v := Latest(c.backups, keyOf, true);
    assert v == Collect(c).lastSuccess;
    GroupIsOfSeries(t, now, c, s, timing);
    if s in v {
      var b :| b in c.backups && IsSuccess(b) && keyOf(b) == s && b.backupTime.value == v[s];
    }
    if b :| b in c.backups && IsSuccess(b) && ScrapeSeries(c, b) == s { assert keyOf(b) in v; }
  }

  lemma ScrapedKeys(c: Cluster, k: Key)
    requires ModernTimes(c.backups)
    ensures HasKey(Collect(c).lastSuccess, k) <==> exists at :: SucceededAt(c, k, at)
  {
    var keyOf := b => ScrapeSeries(c, b);
    LatestIsLatest(c.backups, keyOf, true);
    var v := Latest(c.backups, keyOf, true);
    assert v == Collect(c).lastSuccess;
    if s :| s in v && s.key == k {
      var b :| b in c.backups && IsSuccess(b) && keyOf(b) == s && b.backupTime.value == v[s];
      SuccessCounts(c, b);
    }
    if at :| SucceededAt(c, k, at) {
      var b := SuccessOfKey(c, k, at);
      assert keyOf(b) in v;
    }
  }

  /** Some tenant's successes of the key are all too old, or there are none and the schedule is. */
  ghost predicate SomeGroupTooOld(t: Threshold, now: real, c: Cluster, k: Key, timing: Timing) {
    || (exists s: Series :: s.key == k && GroupTooOld(t, now, c, s, timing))
    || ((forall at :: !SucceededAt(c, k, at)) && Late(t, now, timing.created, timing))
  }

  lemma AgeAt(now: real, m: Scrape, s: Series)
    ensures var age := LastSeen(now, m);
      && (s in age <==> s in m.lastSuccess || (s in m.created && !HasKey(m.lastSuccess, s.key)))
      && (s in age ==> age[s] == now - (if s in m.lastSuccess then m.lastSuccess[s] else m.created[s]))
  {
    var a := Age(now, m.lastSuccess);
    assert a.Keys == m.lastSuccess.Keys;
    if x :| x in m.lastSuccess && x.key == s.key { assert x in a; }
  }

  /** Some series of the key is older than the timing allows. */
  ghost predicate SomeAgeLate(t: Threshold, age: Vector, k: Key, timing: Timing) {
    exists s <- age :: s.key == k && age[s] > Deadline(t, timing)
  }

  lemma LateAgeIsAGroup(t: Threshold, now: real, c: Cluster, u: Series)
    requires UniqueNames(c) && ModernTimes(c.backups) && u in FirstWins(Declared(c), false)
    requires SomeAgeLate(t, LastSeen(now, Collect(c)), u.key, FirstWins(Declared(c), false)[u])
    ensures SomeGroupTooOld(t, now, c, u.key, FirstWins(Declared(c), false)[u])
  {
    var m := Collect(c);
    var timing := FirstWins(Declared(c), false)[u];
    var age := LastSeen(now, m);
    ScrapedKeys(c, u.key);
    var s :| s in age && s.key == u.key && age[s] > Deadline(t, timing);
    AgeAt(now, m, s);
    if s in m.lastSuccess {
      ScrapedSuccess(t, now, c, s, timing);
    } else {
      TenantFollowsNamespace(c, s, u);
    }
  }

  lemma GroupIsALateAge(t: Threshold, now: real, c: Cluster, u: Series)
    requires UniqueNames(c) && ModernTimes(c.backups) && u in FirstWins(Declared(c), false)
    requires SomeGroupTooOld(t, now, c, u.key, FirstWins(Declared(c), false)[u])
    ensures SomeAgeLate(t, LastSeen(now, Collect(c)), u.key, FirstWins(Declared(c), false)[u])
  {
    var m := Collect(c);
    var timing := FirstWins(Declared(c), false)[u];
    if s: Series :| s.key == u.key && GroupTooOld(t, now, c, s, timing) {
      ScrapedSuccess(t, now, c, s, timing);
      AgeAt(now, m, s);
    } else {
      ScrapedKeys(c, u.key);
      AgeAt(now, m, u);
    }
  }

  lemma QueryFiresExactly(t: Threshold, now: real, c: Cluster, k: Key)
    requires UniqueNames(c) && ModernTimes(c.backups)
    ensures MissedExpr(t, now, Collect(c)).Some?
    ensures k in Keys(MissedExpr(t, now, Collect(c)).value)
            <==> exists timing :: Live(c, k, timing) && SomeGroupTooOld(t, now, c, k, timing)
  {
    QueryNeverFails(t, now, c);
    var v := MissedExpr(t, now, Collect(c)).value;
    var d := FirstWins(Declared(c), false);
    if k in Keys(v) {
      var s :| s in v && s.key == k;
      if forall u <- d :: u.key == k ==> d[u].paused {
        QuerySilentOnOthers(t, now, c, s);
      } else {
        var u :| u in d && u.key == k && !d[u].paused;
        QueryOnLive(t, now, c, s, u);
        LateAgeIsAGroup(t, now, c, u);
        LiveIsDeclared(c, k, d[u]);
        assert Live(c, k, d[u]);
      }
    }
    if timing :| Live(c, k, timing) && SomeGroupTooOld(t, now, c, k, timing) {
      LiveIsDeclared(c, k, timing);
      var u :| u in d && u.key == k && d[u] == timing && !timing.paused;
      GroupIsALateAge(t, now, c, u);
      var age := LastSeen(now, Collect(c));
      var s :| s in age && s.key == k && age[s] > Deadline(t, timing);
      QueryOnLive(t, now, c, s, u);
    }
  }

  /** A success of one tenant of the key. */
  ghost predicate GroupSucceededAt(c: Cluster, s: Series, at: real) {
    exists b <- c.backups :: SuccessOf(c, b, s.key, at) && LabelledWith(b, s.tenant)
  }

  /** since is when s last succeeded, or when its schedule was created if its key never has. */
  ghost predicate CountsFrom(c: Cluster, s: Series, since: real) {
    if exists at :: SucceededAt(c, s.key, at) then
      GroupSucceededAt(c, s, since) && forall at :: GroupSucceededAt(c, s, at) ==> at <= since
    else
      BelongsToTenant(c, s.key.namespace, s.tenant) && exists timing :: DeclaredBy(c, s.key, timing) && since == timing.created
  }

  /** What the expression reports of a series it fires on: its age counts from that tenant's last success; for
      want of any success of the key, from the creation of a schedule that declares it, and the tenant is the
      namespace's. */
  lemma QueryReportsExactly(t: Threshold, now: real, c: Cluster, s: Series)
    requires UniqueNames(c) && ModernTimes(c.backups)
    requires MissedExpr(t, now, Collect(c)).Some? && s in MissedExpr(t, now, Collect(c)).value
    ensures CountsFrom(c, s, now - MissedExpr(t, now, Collect(c)).value[s])
  {
    var since := AgeOfAFiring(t, now, c, s);
    SeenFrom(c, s, since);
  }

  /** When the series was last seen, as the collector shows it. */
  predicate SeenAt(m: Scrape, s: Series, since: real) {
    || (s in m.lastSuccess && since == m.lastSuccess[s])
    || (s !in m.lastSuccess && s in m.created && !HasKey(m.lastSuccess, s.key) && since == m.created[s])
  }

  lemma AgeOfAFiring(t: Threshold, now: real, c: Cluster, s: Series) returns (since: real)
    requires UniqueNames(c)
    requires MissedExpr(t, now, Collect(c)).Some? && s in MissedExpr(t, now, Collect(c)).value
    ensures since == now - MissedExpr(t, now, Collect(c)).value[s] && SeenAt(Collect(c), s, since)
  {
    PeriodIsOneSided(c);
    since := SeenInExpr(t, now, Collect(c), s);
  }

  lemma SeenInExpr(t: Threshold, now: real, m: Scrape, s: Series) returns (since: real)
    requires OneSided(m.period) && MissedExpr(t, now, m).Some? && s in MissedExpr(t, now, m).value
    ensures since == now - MissedExpr(t, now, m).value[s] && SeenAt(m, s, since)
  {
    ExprOn(t, now, m, s);
    AgeAt(now, m, s);
    since := if s in m.lastSuccess then m.lastSuccess[s] else m.created[s];
  }

  lemma SeenFrom(c: Cluster, s: Series, since: real)
    requires UniqueNames(c) && ModernTimes(c.backups) && SeenAt(Collect(c), s, since)
    ensures CountsFrom(c, s, since)
  {
    ScrapedKeys(c, s.key);
    if s in Collect(c).lastSuccess {
      LatestIsLatest(c.backups, b => ScrapeSeries(c, b), true);
      LatestSince(c, c.backups, s, Collect(c).lastSuccess);
      assert HasKey(Collect(c).lastSuccess, s.key);
    } else {
      DeclaredTenant(c, s, false);
      DeclaredExactly(c, Entry(s, FirstWins(Declared(c), false)[s]));
    }
  }

  lemma LatestSince(c: Cluster, bs: seq<Backup>, s: Series, v: Vector)
    requires bs == c.backups && IsLatest(bs, b => ScrapeSeries(c, b), v) && s in v
    ensures GroupSucceededAt(c, s, v[s]) && forall at :: GroupSucceededAt(c, s, at) ==> at <= v[s]
  {
    var b :| b in bs && IsSuccess(b) && ScrapeSeries(c, b) == s && b.backupTime.value == v[s];
    assert SuccessOf(c, b, s.key, v[s]) && LabelledWith(b, s.tenant);
    forall at | GroupSucceededAt(c, s, at) ensures at <= v[s] {
      var x :| x in c.backups && SuccessOf(c, x, s.key, at) && LabelledWith(x, s.tenant);
      assert ScrapeSeries(c, x) == s;
    }
  }

  // ---- The two together ----

  /** The successes of one key disagree on the tenant, and the deadline falls between two groups. */
  ghost predicate Straddles(t: Threshold, now: real, c: Cluster, k: Key, timing: Timing) {
    && (exists s: Series :: s.key == k && GroupTooOld(t, now, c, s, timing))
    && (exists at :: SucceededAt(c, k, at) && !Late(t, now, at, timing))
  }

  lemma GroupsCover(t: Threshold, now: real, c: Cluster, k: Key, timing: Timing)
    ensures AllTooOld(t, now, c, k, timing) ==> SomeGroupTooOld(t, now, c, k, timing)
    ensures SomeGroupTooOld(t, now, c, k, timing) && !AllTooOld(t, now, c, k, timing) <==> Straddles(t, now, c, k, timing)
  {
    if AllTooOld(t, now, c, k, timing) {
      if at :| SucceededAt(c, k, at) {
        var b := SuccessOfKey(c, k, at);
        var s := ScrapeSeries(c, b);
        forall x | x in c.backups && IsSuccess(x) && ScrapeSeries(c, x) == s ensures Late(t, now, x.backupTime.value, timing) {
          SuccessCounts(c, x);
        }
        GroupIsOfSeries(t, now, c, s, timing);
      }
    }
    if s: Series :| s.key == k && GroupTooOld(t, now, c, s, timing) {
      GroupIsOfSeries(t, now, c, s, timing);
      var b :| b in c.backups && IsSuccess(b) && ScrapeSeries(c, b) == s;
      SuccessCounts(c, b);
    }
  }

  lemma LiveTimingIsOne(c: Cluster, k: Key, a: Timing, b: Timing)
    requires UniqueNames(c) && Live(c, k, a) && Live(c, k, b)
    ensures a == b
  {
    LiveIsDeclared(c, k, a);
    LiveIsDeclared(c, k, b);
    var d := FirstWins(Declared(c), false);
    var u :| u in d && u.key == k && d[u] == a;
    var w :| w in d && w.key == k && d[w] == b;
    TenantFollowsNamespace(c, u, w);
  }

  /** For every cluster state: whatever the fold reports the query fires on, and the query fires on
      more exactly for the keys whose tenants straddle the deadline. */
  lemma QueryIsFoldPlusStraddles(t: Threshold, now: real, c: Cluster, k: Key)
    requires UniqueNames(c) && ModernTimes(c.backups)
    ensures MissedExpr(t, now, Collect(c)).Some?
    ensures var query := Keys(MissedExpr(t, now, Collect(c)).value); var fold := Keys(MissedFold(t, now, c));
      && (k in fold ==> k in query)
      && (k in query && k !in fold <==> exists timing :: Live(c, k, timing) && Straddles(t, now, c, k, timing))
  {
    QueryFiresExactly(t, now, c, k);
    FoldFiresExactly(t, now, c, k);
    if timing :| Live(c, k, timing) {
      GroupsCover(t, now, c, k, timing);
      forall b | Live(c, k, b) ensures b == timing { LiveTimingIsOne(c, k, timing, b); }
    }
  }

  /** Each success carries the tenant its namespace resolves to. */
  predicate TenantsAgree(c: Cluster) {
    forall b <- c.backups :: IsSuccess(b) ==> ScrapeSeries(c, b) == FoldSeries(c, b)
  }

  lemma {:induction false} SameLatest(c: Cluster, bs: seq<Backup>)
    requires ModernTimes(bs) && forall b <- bs :: IsSuccess(b) ==> ScrapeSeries(c, b) == FoldSeries(c, b)
    ensures Latest(bs, b => ScrapeSeries(c, b), true) == Latest(bs, b => FoldSeries(c, b), false)
  {
    if bs != [] {
      var n := |bs| - 1;
      assert forall b <- bs[..n] :: b in bs;
      assert bs[n] in bs;
      SameLatest(c, bs[..n]);
    }
  }

  lemma SuccessTenant(c: Cluster, s: Series)
    requires s in Latest(c.backups, b => FoldSeries(c, b), false)
    ensures s.tenant == TenantOf(c, s.key.namespace)
  {
    var keyOf := b => FoldSeries(c, b);
    LatestIsLatest(c.backups, keyOf, false);
    var b :| b in c.backups && keyOf(b) == s;
  }

  lemma DeclaredTenant(c: Cluster, u: Series, live: bool)
    requires UniqueNames(c) && u in FirstWins(Declared(c), live)
    ensures u.tenant == TenantOf(c, u.key.namespace)
    ensures Entry(u, FirstWins(Declared(c), live)[u]) in Declared(c)
  {
    DeclaredIsConsistent(c);
    FirstWinsFits(Declared(c), live);
  }

  /** With agreeing tenants a key has one series, and its age is what the fold measures. */
  lemma AgeOnLive(now: real, c: Cluster, m: Scrape, s: Series, u: Series, timing: Timing)
    requires m.lastSuccess == Latest(c.backups, b => FoldSeries(c, b), false)
    requires u in m.created && m.created[u] == timing.created && u.tenant == TenantOf(c, u.key.namespace)
    requires forall x <- m.created :: x.key == u.key ==> x == u
    requires s.key == u.key
    ensures var age := LastSeen(now, m);
      && (s in age <==> s == u)
      && (s in age ==> age[s] == now - Since(m.lastSuccess, u, timing))
  {
    forall x | x in m.lastSuccess && x.key == u.key ensures x == u { SuccessTenant(c, x); }
    AgeAt(now, m, s);
  }

  /** A live series is in both folds of the schedules, with one timing. */
  lemma LiveInBoth(c: Cluster, u: Series)
    requires UniqueNames(c)
    ensures var d := FirstWins(Declared(c), false); var active := FirstWins(Declared(c), true);
      && (u in active <==> u in d && !d[u].paused)
      && (u in active ==> active[u] == d[u])
  {
    DeclaredIsConsistent(c);
    FirstWinsFits(Declared(c), false);
    FirstWinsFits(Declared(c), true);
    var d := FirstWins(Declared(c), false);
    var active := FirstWins(Declared(c), true);
    if u in d { assert Entry(u, d[u]) in Declared(c); }
    if u in active { assert Entry(u, active[u]) in Declared(c) && u in d && Entry(u, d[u]) in Declared(c); }
  }

  /** The fold's verdict on one series. */
  predicate FoldSays(t: Threshold, now: real, c: Cluster, last: Vector, s: Series, elapsed: real) {
    var d := FirstWins(Declared(c), false);
    s in d && !d[s].paused && elapsed == now - Since(last, s, d[s]) && elapsed > Deadline(t, d[s])
  }

  lemma FoldAt(t: Threshold, now: real, c: Cluster, s: Series)
    requires UniqueNames(c)
    ensures var w := MissedFold(t, now, c); var last := Latest(c.backups, b => FoldSeries(c, b), false);
      && (s in w ==> FoldSays(t, now, c, last, s, w[s]))
      && (forall x :: FoldSays(t, now, c, last, s, x) ==> s in w && w[s] == x)
  {
    LiveInBoth(c, s);
  }

  lemma QueryAtLive(t: Threshold, now: real, c: Cluster, s: Series, u: Series)
    requires UniqueNames(c)
    requires u in FirstWins(Declared(c), false) && u.key == s.key && !FirstWins(Declared(c), false)[u].paused
    requires Collect(c).lastSuccess == Latest(c.backups, b => FoldSeries(c, b), false)
    ensures MissedExpr(t, now, Collect(c)).Some?
    ensures var v := MissedExpr(t, now, Collect(c)).value; var d := FirstWins(Declared(c), false);
      var elapsed := now - Since(Collect(c).lastSuccess, u, d[u]);
      && (s in v <==> s == u && elapsed > Deadline(t, d[u]))
      && (s in v ==> v[s] == elapsed)
  {
    QueryOnLive(t, now, c, s, u);
    DeclaredTenant(c, u, false);
    var d := FirstWins(Declared(c), false);
    forall x | x in d && x.key == u.key ensures x == u { TenantFollowsNamespace(c, x, u); }
    AgeOnLive(now, c, Collect(c), s, u, d[u]);
  }

  /** The query's vector says of one series what the fold does. */
  ghost predicate QuerySays(t: Threshold, now: real, c: Cluster, v: Vector, s: Series) {
    && (s in v ==> FoldSays(t, now, c, Collect(c).lastSuccess, s, v[s]))
    && (forall x :: FoldSays(t, now, c, Collect(c).lastSuccess, s, x) ==> s in v && v[s] == x)
  }

  lemma QuerySaysOnLive(t: Threshold, now: real, c: Cluster, v: Vector, s: Series, u: Series)
    requires UniqueNames(c)
    requires u in FirstWins(Declared(c), false) && u.key == s.key && !FirstWins(Declared(c), false)[u].paused
    requires var d := FirstWins(Declared(c), false); var elapsed := now - Since(Collect(c).lastSuccess, u, d[u]);
      && (s in v <==> s == u && elapsed > Deadline(t, d[u]))
      && (s in v ==> v[s] == elapsed)
    ensures QuerySays(t, now, c, v, s)
  {
    if s in FirstWins(Declared(c), false) { TenantFollowsNamespace(c, s, u); }
  }

  lemma QueryAt(t: Threshold, now: real, c: Cluster, v: Vector, s: Series)
    requires UniqueNames(c)
    requires Collect(c).lastSuccess == Latest(c.backups, b => FoldSeries(c, b), false)
    requires MissedExpr(t, now, Collect(c)) == Some(v)
    ensures QuerySays(t, now, c, v, s)
  {
    var d := FirstWins(Declared(c), false);
    if forall u <- d :: u.key == s.key ==> d[u].paused {
      QuerySilentOnOthers(t, now, c, s);
    } else {
      var u :| u in d && u.key == s.key && !d[u].paused;
      QueryAtLive(t, now, c, s, u);
      QuerySaysOnLive(t, now, c, v, s, u);
    }
  }

  lemma SameVectors(v: Vector, w: Vector)
    requires forall s: Series :: (s in v <==> s in w) && (s in v ==> v[s] == w[s])
    ensures v == w
  {
    assert v.Keys == w.Keys;
  }

  lemma SameOn(t: Threshold, now: real, c: Cluster, v: Vector, w: Vector, s: Series)
    requires UniqueNames(c)
    requires Collect(c).lastSuccess == Latest(c.backups, b => FoldSeries(c, b), false)
    requires MissedExpr(t, now, Collect(c)) == Some(v) && MissedFold(t, now, c) == w
    ensures (s in v <==> s in w) && (s in v ==> v[s] == w[s])
  {
    FoldAt(t, now, c, s);
    QueryAt(t, now, c, v, s);
  }

  /** When the tenants agree the two are the same vector: same series, all six labels, same age. */
  lemma QueryEqualsFold(t: Threshold, now: real, c: Cluster)
    requires UniqueNames(c) && ModernTimes(c.backups) && TenantsAgree(c)
    ensures MissedExpr(t, now, Collect(c)) == Some(MissedFold(t, now, c))
  {
    QueryNeverFails(t, now, c);
    SameLatest(c, c.backups);
    SameEverywhere(t, now, c, MissedExpr(t, now, Collect(c)).value, MissedFold(t, now, c));
  }

  lemma SameEverywhere(t: Threshold, now: real, c: Cluster, v: Vector, w: Vector)
    requires UniqueNames(c)
    requires Collect(c).lastSuccess == Latest(c.backups, b => FoldSeries(c, b), false)
    requires MissedExpr(t, now, Collect(c)) == Some(v) && MissedFold(t, now, c) == w
    ensures v == w
  {
    forall s: Series ensures (s in v <==> s in w) && (s in v ==> v[s] == w[s]) {
      SameOn(t, now, c, v, w, s);
    }
    SameVectors(v, w);
  }

  // ---- A straddle ----

  /** A run recorded under a namespace's old tenant label, and a newer one under none. */
  const EARLIER := Backup("ns", "b0", "s", ORIGIN_NAMESPACE, "t", "l", CompletedPhase, Some(1.0), 1.0, false)
  const RECENT := Backup("ns", "b1", "s", ORIGIN_NAMESPACE, "", "l", CompletedPhase, Some(100000.0), 1.0, false)

  const RELABELLED := Cluster(map[], map[], [Schedule("ns", "s", "l", false, 1.0, None)], [], [EARLIER, RECENT])

  const RUN_KEY := Key("ns", "s", ORIGIN_NAMESPACE, "l", "")

  const NO_PERIOD := Timing(false, 1.0, None)

  lemma RelabelledIsLive()
    ensures Live(RELABELLED, RUN_KEY, NO_PERIOD)
  {
    var c := RELABELLED;
    assert c.schedules[..0] == [] && c.clusterSchedules == [];
    var e := ScheduleEntry(c, c.schedules[0]);
    assert ScheduleEntries(c, c.schedules) == [e];
    assert Declared(c) == [e];
    assert e in Declared(c) && e.series.key == RUN_KEY && e.timing == NO_PERIOD;
    LiveHasEntry(c, RUN_KEY, NO_PERIOD);
  }

  lemma RelabelledStraddles()
    ensures Straddles(WARNING, 100001.0, RELABELLED, RUN_KEY, NO_PERIOD)
  {
    var c := RELABELLED;
    var s := Series(RUN_KEY, "t");
    assert EARLIER in c.backups && RECENT in c.backups;
    assert ScrapeSeries(c, EARLIER) == s;
    assert ScrapeSeries(c, RECENT).tenant == "ns" && |"ns"| == 2;
    GroupIsOfSeries(WARNING, 100001.0, c, s, NO_PERIOD);
    SuccessCounts(c, RECENT);
    assert SucceededAt(c, RUN_KEY, 100000.0) && !Late(WARNING, 100001.0, 100000.0, NO_PERIOD);
  }

  lemma TenantChangeMakesThemDiffer()
    ensures MissedExpr(WARNING, 100001.0, Collect(RELABELLED)).Some?
    ensures RUN_KEY in Keys(MissedExpr(WARNING, 100001.0, Collect(RELABELLED)).value)
    ensures RUN_KEY !in Keys(MissedFold(WARNING, 100001.0, RELABELLED))
  {
    RelabelledIsLive();
    RelabelledStraddles();
    QueryIsFoldPlusStraddles(WARNING, 100001.0, RELABELLED, RUN_KEY);
  }

  /** Whatever breaches the critical bound breaches the warning bound at the same instant. */
  lemma CriticalIsAlsoWarning(now: real, c: Cluster)
    requires forall e <- Declared(c) :: e.timing.period.Some? ==> e.timing.period.value >= 0.0
    ensures MissedFold(CRITICAL, now, c).Keys <= MissedFold(WARNING, now, c).Keys
  {
    var active := FirstWins(Declared(c), true);
    FirstWinsValues(Declared(c), true);
    forall s | s in MissedFold(CRITICAL, now, c) ensures s in MissedFold(WARNING, now, c) {
      var e :| e in Declared(c) && e.timing == active[s];
      assert Deadline(WARNING, active[s]) <= Deadline(CRITICAL, active[s]);
    }
  }

  /** So does whatever breaches the critical expression, on every label, and neither evaluation fails. */
  lemma CriticalAlertIsAlsoWarning(now: real, c: Cluster)
    requires UniqueNames(c)
    requires forall e <- Declared(c) :: e.timing.period.Some? ==> e.timing.period.value >= 0.0
    ensures MissedExpr(CRITICAL, now, Collect(c)).Some? && MissedExpr(WARNING, now, Collect(c)).Some?
    ensures MissedExpr(CRITICAL, now, Collect(c)).value.Keys <= MissedExpr(WARNING, now, Collect(c)).value.Keys
  {
    QueryNeverFails(CRITICAL, now, c);
    QueryNeverFails(WARNING, now, c);
    forall s | s in MissedExpr(CRITICAL, now, Collect(c)).value ensures s in MissedExpr(WARNING, now, Collect(c)).value {
      CriticalSeriesIsWarning(now, c, s);
    }
  }

  lemma CriticalSeriesIsWarning(now: real, c: Cluster, s: Series)
    requires UniqueNames(c)
    requires forall e <- Declared(c) :: e.timing.period.Some? ==> e.timing.period.value >= 0.0
    ensures MissedExpr(CRITICAL, now, Collect(c)).Some? && MissedExpr(WARNING, now, Collect(c)).Some?
    ensures s in MissedExpr(CRITICAL, now, Collect(c)).value ==> s in MissedExpr(WARNING, now, Collect(c)).value
  {
    QueryNeverFails(CRITICAL, now, c);
    QueryNeverFails(WARNING, now, c);
    var d := FirstWins(Declared(c), false);
    if forall u <- d :: u.key == s.key ==> d[u].paused {
      QuerySilentOnOthers(CRITICAL, now, c, s);
    } else {
      var u :| u in d && u.key == s.key && !d[u].paused;
      QueryOnLive(CRITICAL, now, c, s, u);
      QueryOnLive(WARNING, now, c, s, u);
      FirstWinsValues(Declared(c), false);
      var e :| e in Declared(c) && e.timing == d[u];
      CriticalIsLater(d[u]);
    }
  }

  lemma CriticalIsLater(timing: Timing)
    requires timing.period.Some? ==> timing.period.value >= 0.0
    ensures Deadline(WARNING, timing) <= Deadline(CRITICAL, timing)
  {
  }

  lemma {:induction false} FirstWinsValues(es: seq<Entry>, live: bool)
    ensures forall s <- FirstWins(es, live) :: exists e <- es :: e.timing == FirstWins(es, live)[s]
  {
    if es != [] {
      var n := |es| - 1;
      FirstWinsValues(es[..n], live);
      assert es[n] in es;
      assert forall e <- es[..n] :: e in es;
    }
  }
}
