/** The part of PromQL the missed-backup alert is written in. An instant vector maps label sets to
    values; a join on the five missed-backup keys leaves the tenant out. Values are exact rationals. */
module PromQL {
  import opened Prelude

  /** The five labels of every join. */
  datatype Key = Key(namespace: string, schedule: string, origin: string, location: string, cluster: string)

  datatype Series = Series(key: Key, tenant: string)

  type Vector = map<Series, real>

  predicate HasKey(v: Vector, k: Key) { exists s <- v :: s.key == k }

  ghost function Keys(v: Vector): set<Key> { set s <- v :: s.key }

  /** time() - v */
  function Age(now: real, v: Vector): Vector { map s <- v :: now - v[s] }

  /** v * factor + grace */
  function Affine(v: Vector, factor: real, grace: real): Vector { map s <- v :: v[s] * factor + grace }

  /** v > c */
  function Above(v: Vector, c: real): Vector { map s <- v | v[s] > c :: v[s] }

  /** v == c */
  function EqualTo(v: Vector, c: real): Vector { map s <- v | v[s] == c :: v[s] }

  /** a or on (keys) b: all of a, and what of b meets no key of a. */
  function OrOn(a: Vector, b: Vector): Vector {
    a + map s <- b | !HasKey(a, s.key) :: b[s]
  }

  /** a and on (keys) b */
  function AndOn(a: Vector, b: Vector): Vector { map s <- a | HasKey(b, s.key) :: a[s] }

  /** a unless on (keys) b */
  function UnlessOn(a: Vector, b: Vector): Vector { map s <- a | !HasKey(b, s.key) :: a[s] }

  /** a or b, matched on every label. */
  function Or(a: Vector, b: Vector): Vector { b + a }

  /** At most one series for each key. */
  predicate OneSided(v: Vector) { forall s <- v, t <- v :: s.key == t.key ==> s == t }

  /** a > on (keys) group_left() b: a many-to-one comparison that keeps the left side. Two series for
      one key on the right fail the whole evaluation. */
  function AboveOn(a: Vector, b: Vector): Option<Vector> {
    if !OneSided(b) then None
    else Some(map s <- a | (exists t <- b :: t.key == s.key && a[s] > b[t]) :: a[s])
  }

  /** The join fails exactly on two series for one key on its right. */
  lemma JoinFailsExactly(a: Vector, b: Vector)
    ensures AboveOn(a, b).None? <==> exists s <- b, t <- b :: s.key == t.key && s != t
  {
  }

  datatype Threshold = Threshold(factor: real, grace: real, age: real)

  const WARNING := Threshold(1.1, 3600.0, 93600.0)
  const CRITICAL := Threshold(3.0, 3600.0, 266400.0)

  /** The four series the alert reads. */
  datatype Scrape = Scrape(lastSuccess: Vector, created: Vector, period: Vector, active: Vector)

  function LastSeen(now: real, m: Scrape): Vector { OrOn(Age(now, m.lastSuccess), Age(now, m.created)) }

  /** The missed-backup expression; None is a failed evaluation. */
  function MissedExpr(t: Threshold, now: real, m: Scrape): Option<Vector> {
    var age := LastSeen(now, m);
    match AboveOn(age, Affine(m.period, t.factor, t.grace))
    case None => None
    case Some(derived) =>
      var fallback := UnlessOn(Above(age, t.age), m.period);
      Some(AndOn(Or(derived, fallback), EqualTo(m.active, 1.0)))
  }

  /** The stale-timestamp shape: time() - v > c */
  function StaleExpr(age: real, now: real, v: Vector): Vector { Above(Age(now, v), age) }
}
