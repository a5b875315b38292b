/** The cluster objects the alerts are about, the series the collector derives from them, and the
    maps the self-check folds them into. */
module ClusterState {
  import opened Prelude
  import opened PromQL
  import opened BackupPass

  /** period: the cron's period in seconds at the instant of the evaluation, None when it does not
      parse. Times are seconds since the epoch. */
  datatype Schedule = Schedule(namespace: string, name: string, location: string, paused: bool,
                               created: real, period: Option<real>)

  /** matched: the namespaces its selector selects, None when the selector is refused. */
  datatype ClusterSchedule = ClusterSchedule(name: string, location: string, paused: bool, created: real,
                                             period: Option<real>, matched: Option<seq<string>>)

  /** Labels that are absent are empty. */
  datatype Backup = Backup(namespace: string, name: string, schedule: string, origin: string, tenant: string,
                           location: string, phase: BackupPhase, backupTime: Option<real>, created: real,
                           projected: bool)

  datatype Cluster = Cluster(
    tenantLabels: map<string, string>,
    clusterIds: map<string, string>,
    schedules: seq<Schedule>,
    clusterSchedules: seq<ClusterSchedule>,
    backups: seq<Backup>)

  const ORIGIN_NAMESPACE := "namespace"
  const ORIGIN_CLUSTER := "cluster"

  function TenantOf(c: Cluster, ns: string): string {
    if ns in c.tenantLabels && c.tenantLabels[ns] != "" then c.tenantLabels[ns] else ns
  }

  function IdOf(c: Cluster, location: string): string {
    if location in c.clusterIds then c.clusterIds[location] else ""
  }

  function KeyOf(c: Cluster, b: Backup): Key { Key(b.namespace, b.schedule, b.origin, b.location, IdOf(c, b.location)) }

  /** The series a Backup belongs to for the self-check: the tenant is its namespace's. */
  function FoldSeries(c: Cluster, b: Backup): Series { Series(KeyOf(c, b), TenantOf(c, b.namespace)) }

  /** The series the collector puts it in: the tenant is the Backup's own label. */
  function ScrapeSeries(c: Cluster, b: Backup): Series {
    Series(KeyOf(c, b), if b.tenant == "" then b.namespace else b.tenant)
  }

  // ---- Schedules ----

  datatype Timing = Timing(paused: bool, created: real, period: Option<real>)

  datatype Entry = Entry(series: Series, timing: Timing)

  function ScheduleEntry(c: Cluster, s: Schedule): Entry {
    Entry(Series(Key(s.namespace, s.name, ORIGIN_NAMESPACE, s.location, IdOf(c, s.location)), TenantOf(c, s.namespace)),
          Timing(s.paused, s.created, s.period))
  }

  function FanOutEntry(c: Cluster, s: ClusterSchedule, ns: string): Entry {
    Entry(Series(Key(ns, s.name, ORIGIN_CLUSTER, s.location, IdOf(c, s.location)), TenantOf(c, ns)),
          Timing(s.paused, s.created, s.period))
  }

  function ScheduleEntries(c: Cluster, ss: seq<Schedule>): (r: seq<Entry>)
    ensures forall e <- r :: exists s <- ss :: e == ScheduleEntry(c, s)
  {
    if ss == [] then [] else ScheduleEntries(c, ss[..|ss| - 1]) + [ScheduleEntry(c, ss[|ss| - 1])]
  }

  function FanOut(c: Cluster, s: ClusterSchedule, names: seq<string>): (r: seq<Entry>)
    ensures forall e <- r :: exists ns <- names :: e == FanOutEntry(c, s, ns)
  {
    if names == [] then [] else FanOut(c, s, names[..|names| - 1]) + [FanOutEntry(c, s, names[|names| - 1])]
  }

  function EntriesOf(c: Cluster, s: ClusterSchedule): seq<Entry> {
    if s.matched.Some? then FanOut(c, s, s.matched.value) else []
  }

  function ClusterEntries(c: Cluster, ss: seq<ClusterSchedule>): (r: seq<Entry>)
    ensures forall e <- r :: exists s <- ss, ns: string :: e == FanOutEntry(c, s, ns)
  {
    if ss == [] then [] else ClusterEntries(c, ss[..|ss| - 1]) + EntriesOf(c, ss[|ss| - 1])
  }

  /** Every series some schedule declares, both planes, in the order both sides walk them. */
  function Declared(c: Cluster): seq<Entry> { ScheduleEntries(c, c.schedules) + ClusterEntries(c, c.clusterSchedules) }

  // ---- What that comes to, in the objects' own fields ----

  /** The cluster a location stands for; none if the location is unknown. */
  predicate StandsFor(c: Cluster, location: string, id: string) {
    if location in c.clusterIds then id == c.clusterIds[location] else id == ""
  }

  /** The tenant of a namespace: its label, or its own name. */
  predicate BelongsToTenant(c: Cluster, ns: string, tenant: string) {
    if ns in c.tenantLabels && c.tenantLabels[ns] != "" then tenant == c.tenantLabels[ns] else tenant == ns
  }

  /** The schedule declares this key, on the namespace plane. */
  predicate DeclaresOwn(c: Cluster, s: Schedule, k: Key) {
    && k.namespace == s.namespace && k.schedule == s.name && k.origin == ORIGIN_NAMESPACE && k.location == s.location
    && StandsFor(c, s.location, k.cluster)
  }

  /** The cluster schedule declares it for a namespace its selector accepts. */
  predicate DeclaresFanOut(c: Cluster, s: ClusterSchedule, k: Key) {
    && s.matched.Some? && k.namespace in s.matched.value
    && k.schedule == s.name && k.origin == ORIGIN_CLUSTER && k.location == s.location
    && StandsFor(c, s.location, k.cluster)
  }

  /** Some schedule of either plane declares this key with this timing. */
  predicate DeclaredBy(c: Cluster, k: Key, timing: Timing) {
    || (exists s <- c.schedules :: DeclaresOwn(c, s, k) && timing == Timing(s.paused, s.created, s.period))
    || (exists s <- c.clusterSchedules :: DeclaresFanOut(c, s, k) && timing == Timing(s.paused, s.created, s.period))
  }

  lemma {:induction false} ScheduleEntriesExactly(c: Cluster, ss: seq<Schedule>, e: Entry)
    ensures e in ScheduleEntries(c, ss) <==>
      && (exists s <- ss :: DeclaresOwn(c, s, e.series.key) && e.timing == Timing(s.paused, s.created, s.period))
      && BelongsToTenant(c, e.series.key.namespace, e.series.tenant)
  {
    if ss != [] {
      var n := |ss| - 1;
      ScheduleEntriesExactly(c, ss[..n], e);
      assert ss == ss[..n] + [ss[n]];
      assert e == ScheduleEntry(c, ss[n]) <==>
        && DeclaresOwn(c, ss[n], e.series.key) && e.timing == Timing(ss[n].paused, ss[n].created, ss[n].period)
        && BelongsToTenant(c, e.series.key.namespace, e.series.tenant);
    }
  }

  lemma {:induction false} FanOutExactly(c: Cluster, s: ClusterSchedule, names: seq<string>, e: Entry)
    ensures e in FanOut(c, s, names) <==>
      && e.series.key.namespace in names && DeclaresFanOut(c, s.(matched := Some(names)), e.series.key)
      && e.timing == Timing(s.paused, s.created, s.period)
      && BelongsToTenant(c, e.series.key.namespace, e.series.tenant)
  {
    if names != [] {
      var n := |names| - 1;
      FanOutExactly(c, s, names[..n], e);
      assert names == names[..n] + [names[n]];
    }
  }

  lemma {:induction false} ClusterEntriesExactly(c: Cluster, ss: seq<ClusterSchedule>, e: Entry)
    ensures e in ClusterEntries(c, ss) <==>
      && (exists s <- ss :: DeclaresFanOut(c, s, e.series.key) && e.timing == Timing(s.paused, s.created, s.period))
      && BelongsToTenant(c, e.series.key.namespace, e.series.tenant)
  {
    if ss != [] {
      var n := |ss| - 1;
      ClusterEntriesExactly(c, ss[..n], e);
      assert ss == ss[..n] + [ss[n]];
      if ss[n].matched.Some? {
        FanOutExactly(c, ss[n], ss[n].matched.value, e);
        assert ss[n].(matched := Some(ss[n].matched.value)) == ss[n];
      }
      if s :| s in ss && DeclaresFanOut(c, s, e.series.key) && e.timing == Timing(s.paused, s.created, s.period) {
        assert s in ss[..n] || s == ss[n];
      }
    }
  }

  /** An entry is declared exactly when some schedule has its namespace, name, location, cluster and timing, or
      some cluster schedule has and its selector accepts the namespace; and its tenant is the namespace's. */
  lemma DeclaredExactly(c: Cluster, e: Entry)
    ensures e in Declared(c) <==> DeclaredBy(c, e.series.key, e.timing) && BelongsToTenant(c, e.series.key.namespace, e.series.tenant)
  {
    ScheduleEntriesExactly(c, c.schedules, e);
    ClusterEntriesExactly(c, c.clusterSchedules, e);
  }

  /** The first entry of each series wins; live leaves the paused ones out first. */
  function FirstWins(es: seq<Entry>, live: bool): map<Series, Timing> {
    if es == [] then map[]
    else
      var m := FirstWins(es[..|es| - 1], live);
      var e := es[|es| - 1];
      if e.series in m || (live && e.timing.paused) then m else m[e.series := e.timing]
  }

  /** Object names are unique in their scope. */
  predicate UniqueNames(c: Cluster) {
    && (forall s <- c.schedules, t <- c.schedules :: s.namespace == t.namespace && s.name == t.name ==> s == t)
    && (forall s <- c.clusterSchedules, t <- c.clusterSchedules :: s.name == t.name ==> s == t)
  }

  predicate Consistent(es: seq<Entry>) { forall e <- es, f <- es :: e.series == f.series ==> e == f }

  lemma DeclaredIsConsistent(c: Cluster)
    requires UniqueNames(c)
    ensures Consistent(Declared(c))
    ensures forall e <- Declared(c) :: e.series.tenant == TenantOf(c, e.series.key.namespace)
  {
    var a := ScheduleEntries(c, c.schedules);
    var b := ClusterEntries(c, c.clusterSchedules);
    forall e: Entry, f: Entry | e in a + b && f in a + b && e.series == f.series ensures e == f {
      assert ORIGIN_NAMESPACE[0] != ORIGIN_CLUSTER[0];
      if e in a {
        var s :| s in c.schedules && e == ScheduleEntry(c, s);
        assert f in a;
        var s' :| s' in c.schedules && f == ScheduleEntry(c, s');
        assert s == s';
      } else {
        var s, ns :| s in c.clusterSchedules && e == FanOutEntry(c, s, ns);
        assert f in b;
        var s', ns' :| s' in c.clusterSchedules && f == FanOutEntry(c, s', ns');
        assert s == s';
      }
    }
  }

  lemma {:induction false} FirstWinsFits(es: seq<Entry>, live: bool)
    requires Consistent(es)
    ensures forall s :: s in FirstWins(es, live) <==> exists e <- es :: e.series == s && !(live && e.timing.paused)
    ensures forall s <- FirstWins(es, live) :: Entry(s, FirstWins(es, live)[s]) in es && !(live && FirstWins(es, live)[s].paused)
  {
    if es != [] {
      var init := es[..|es| - 1];
      var e := es[|es| - 1];
      assert es == init + [e];
      assert forall x <- init :: x in es;
      FirstWinsFits(init, live);
    }
  }

  // ---- Folds over Backups ----

  /** A success recorded at this time, for this key. */
  predicate SuccessOf(c: Cluster, b: Backup, k: Key, at: real) {
    && (b.phase.CompletedPhase? || b.phase.PartiallyCompletedPhase?) && b.backupTime == Some(at)
    && RunOf(c, b, k)
  }

  /** The Backup is a run of this key. */
  predicate RunOf(c: Cluster, b: Backup, k: Key) {
    && b.namespace == k.namespace && b.schedule == k.schedule && b.origin == k.origin && b.location == k.location
    && StandsFor(c, b.location, k.cluster)
  }

  /** The tenant the collector reads off the Backup itself. */
  predicate LabelledWith(b: Backup, tenant: string) { tenant == if b.tenant == "" then b.namespace else b.tenant }

  lemma SeriesExactly(c: Cluster, b: Backup, s: Series)
    ensures KeyOf(c, b) == s.key <==> RunOf(c, b, s.key)
    ensures FoldSeries(c, b) == s <==> RunOf(c, b, s.key) && BelongsToTenant(c, b.namespace, s.tenant)
    ensures ScrapeSeries(c, b) == s <==> RunOf(c, b, s.key) && LabelledWith(b, s.tenant)
  {
  }

  predicate IsSuccess(b: Backup) { b.phase.Succeeded() && b.backupTime.Some? }

  /** The latest success of each series. gated: a time that is not after the epoch is dropped, as the
      collector's zero start does. */
  function Latest(bs: seq<Backup>, keyOf: Backup -> Series, gated: bool): Vector {
    if bs == [] then map[]
    else
      var m := Latest(bs[..|bs| - 1], keyOf, gated);
      var b := bs[|bs| - 1];
      if !IsSuccess(b) then m
      else
        var t := b.backupTime.value;
        if (keyOf(b) in m && t <= m[keyOf(b)]) || (gated && t <= 0.0) then m else m[keyOf(b) := t]
  }

  /** v holds, for each series with a success in bs, the greatest success time. */
  ghost predicate IsLatest(bs: seq<Backup>, keyOf: Backup -> Series, v: Vector) {
    && (forall b <- bs :: IsSuccess(b) ==> keyOf(b) in v && b.backupTime.value <= v[keyOf(b)])
    && (forall s <- v :: exists b <- bs :: IsSuccess(b) && keyOf(b) == s && b.backupTime.value == v[s])
  }

  predicate ModernTimes(bs: seq<Backup>) {
    forall b <- bs :: b.created > 0.0 && (b.backupTime.Some? ==> b.backupTime.value > 0.0)
  }

  lemma {:induction false} LatestIsLatest(bs: seq<Backup>, keyOf: Backup -> Series, gated: bool)
    requires gated ==> ModernTimes(bs)
    ensures IsLatest(bs, keyOf, Latest(bs, keyOf, gated))
  {
    if bs != [] {
      var init := bs[..|bs| - 1];
      var b := bs[|bs| - 1];
      assert bs == init + [b];
      assert forall x <- init :: x in bs;
      assert b in bs;
      LatestIsLatest(init, keyOf, gated);
    }
  }

  /** A vector is determined by being the latest, so the order of the list does not matter. */
  lemma LatestIsOrderFree(bs: seq<Backup>, cs: seq<Backup>, keyOf: Backup -> Series)
    requires forall b :: b in bs <==> b in cs
    ensures Latest(bs, keyOf, false) == Latest(cs, keyOf, false)
  {
    LatestIsLatest(bs, keyOf, false);
    LatestIsLatest(cs, keyOf, false);
    var v, w := Latest(bs, keyOf, false), Latest(cs, keyOf, false);
    forall s | s in v ensures s in w && v[s] <= w[s] {
      var b :| b in bs && IsSuccess(b) && keyOf(b) == s && b.backupTime.value == v[s];
      assert b in cs;
    }
    forall s | s in w ensures s in v && w[s] <= v[s] {
      var b :| b in cs && IsSuccess(b) && keyOf(b) == s && b.backupTime.value == w[s];
      assert b in bs;
    }
    assert v.Keys == w.Keys;
  }

  // ---- What a scrape shows ----

  function Collect(c: Cluster): Scrape {
    var m := FirstWins(Declared(c), false);
    Scrape(Latest(c.backups, b => ScrapeSeries(c, b), true),
           map s <- m :: m[s].created,
           map s <- m | m[s].period.Some? :: m[s].period.value,
           map s <- m :: if m[s].paused then 0.0 else 1.0)
  }
}
