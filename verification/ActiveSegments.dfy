/** The table of running author segments: one per job, each with the abort controller
    that a cancellation reaches. A segment runs from its beginning to its end; requests
    of other segments and cancellations interleave in between. */
module ActiveSegments {
  import opened Wrappers

  class Segments {
    var values: map<string, nat>
    var aborted: set<nat>
    var next: nat
    ghost var running: map<nat, string>

    /** A job has an entry exactly while a segment of it runs, namely the controller of
        that segment; so no job runs two. */
    ghost predicate Valid()
      reads this
    {
      && (forall job | job in values :: values[job] in running && running[values[job]] == job)
      && (forall c | c in running :: c < next && running[c] in values && values[running[c]] == c)
      && (forall c | c in aborted :: c < next)
    }

    constructor ()
      ensures Valid() && running == map[]
    {
      values, aborted, next, running := map[], {}, 0, map[];
    }

    lemma OneSegmentPerJob(c: nat, d: nat)
      requires Valid() && c in running && d in running && running[c] == running[d]
      ensures c == d
    {
      assert values[running[c]] == c;
    }

    /** beginActiveSegment: refused exactly while a segment of the job runs. The new
        controller is not aborted, whatever was cancelled before. */
    method Begin(job: string) returns (controller: Option<nat>)
      requires Valid()
      modifies this
      ensures Valid()
      ensures controller.None? <==> exists c :: c in old(running) && old(running)[c] == job
      ensures controller.None? ==> running == old(running)
      ensures controller.Some? ==> controller.value !in aborted && running == old(running)[controller.value := job]
      ensures aborted == old(aborted)
    {
      if job in values {
        assert running[values[job]] == job;
        return None;
      }
      var c := next;
      values, next, running := values[job := c], next + 1, running[c := job];
      controller := Some(c);
    }

    /** endActiveSegment: ends the segment of this controller, and no other segment of the job. */
    method End(job: string, controller: nat)
      requires Valid()
      modifies this
      ensures Valid()
      ensures running == if controller in old(running) && old(running)[controller] == job
                         then old(running) - {controller} else old(running)
      ensures aborted == old(aborted)
    {
      if job in values && values[job] == controller {
        values, running := values - {job}, running - {controller};
      }
    }

    /** abortActiveSegment: reaches exactly the running segment of the job, if there is one. */
    method Abort(job: string) returns (found: bool)
      requires Valid()
      modifies this
      ensures Valid() && running == old(running)
      ensures found <==> exists c :: c in running && running[c] == job
      ensures forall c | c in running :: c in aborted <==> c in old(aborted) || running[c] == job
    {
      if job !in values { return false; }
      assert running[values[job]] == job;
      aborted := aborted + {values[job]};
      found := true;
    }
  }
}
