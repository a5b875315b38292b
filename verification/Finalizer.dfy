/** Deleting a Backup: sweep what it may have left live, and only then let the object go. */
module Finalizer {
  import opened VolumeModel

  /** The volumes the sweep is about: everything but the Skipped ones. */
  function Sweepable(vs: seq<VolumeStatus>): set<string> { set v <- vs | !v.phase.Skipped? :: v.pvc }

  lemma SweepableExactly(vs: seq<VolumeStatus>, pvc: string)
    ensures pvc in Sweepable(vs) <==> exists v <- vs :: v.pvc == pvc && v.phase != Skipped
  {
  }

  /** What the API server answers: the volumes whose clean-up answers success, those whose exposure is gone
      after it (an accepted delete may linger, and a failed clean-up may have got part of the way), the Jobs
      and the manifest grant whose best-effort deletes go through, and the update that removes the finalizer. */
  datatype Env = Env(cleanable: set<string>, gone: set<string>, jobsGo: set<string>, grantGoes: bool, updated: bool)

  /** The PVCs with a live exposure, a Job, and the manifest grant, of the Backup being deleted. */
  class Deletion {
    var exposures: set<string>
    var jobs: set<string>
    var manifestGrant: bool
    var finalizer: bool

    /** Sweeps volume by volume; a failure is remembered and the sweep goes on. */
    method SweepVolumes(vs: seq<VolumeStatus>, env: Env) returns (allClean: bool)
      modifies this`exposures, this`jobs
      ensures allClean <==> Sweepable(vs) <= env.cleanable
      ensures exposures == old(exposures) - Sweepable(vs) * env.gone
      ensures jobs == old(jobs) - Sweepable(vs) * env.cleanable * env.jobsGo
    {
      allClean := true;
      for i := 0 to |vs|
        invariant allClean <==> Sweepable(vs[..i]) <= env.cleanable
        invariant exposures == old(exposures) - Sweepable(vs[..i]) * env.gone
        invariant jobs == old(jobs) - Sweepable(vs[..i]) * env.cleanable * env.jobsGo
      {
        var v := vs[i];
        SweepableOneMore(vs, i);
        if v.phase.Skipped? { continue; }
        if v.pvc in env.gone { exposures := exposures - {v.pvc}; }
        if v.pvc !in env.cleanable {
          allClean := false;
          continue;
        }
        if v.pvc in env.jobsGo { jobs := jobs - {v.pvc}; }
      }
      assert vs[..|vs|] == vs;
    }

    /** The finalizer goes exactly when every sweepable clean-up answered success and the update went
        through; otherwise the object stays, to be swept again. What it then goes over is exactly the
        exposures of volumes that are not swept and those a successful clean-up left behind. The Jobs and
        the manifest grant are tried and not waited for. */
    method Finalize(vs: seq<VolumeStatus>, env: Env)
      modifies this
      ensures finalizer <==> old(finalizer) && !(Sweepable(vs) <= env.cleanable && env.updated)
      ensures old(finalizer) && !finalizer ==> forall p ::
        p in exposures <==> p in old(exposures) && (p !in Sweepable(vs) || (p in env.cleanable && p !in env.gone))
      ensures old(finalizer) ==>
        && exposures == old(exposures) - Sweepable(vs) * env.gone
        && jobs == old(jobs) - Sweepable(vs) * env.cleanable * env.jobsGo
        && manifestGrant == (old(manifestGrant) && !(Sweepable(vs) <= env.cleanable && env.grantGoes))
      ensures !old(finalizer) ==> exposures == old(exposures) && jobs == old(jobs) && manifestGrant == old(manifestGrant)
    {
      if !finalizer { return; }
      var allClean := SweepVolumes(vs, env);
      if !allClean { return; }
      if env.grantGoes { manifestGrant := false; }
      if env.updated { finalizer := false; }
    }
  }

  lemma SweepableOneMore(vs: seq<VolumeStatus>, i: nat)
    requires i < |vs|
    ensures Sweepable(vs[..i + 1]) == Sweepable(vs[..i]) + (if vs[i].phase.Skipped? then {} else {vs[i].pvc})
  {
    assert vs[..i + 1] == vs[..i] + [vs[i]];
    var s := Sweepable(vs[..i + 1]);
    var r := Sweepable(vs[..i]) + (if vs[i].phase.Skipped? then {} else {vs[i].pvc});
    forall x | x in r ensures x in s {
      if x in Sweepable(vs[..i]) {
        var v :| v in vs[..i] && !v.phase.Skipped? && v.pvc == x;
        assert v in vs[..i + 1];
      } else {
        assert vs[i] in vs[..i + 1];
      }
    }
  }
}
