/** What starting a job records, and what a late sync of a finished one stores (transoria/bridge/task_service.py). */
module RetranslateSync {
  import opened Lists
  import opened TextRules
  import opened Retranslate

  // ---- starting

  function FirstAt(ids: seq<nat>, id: nat): nat {
    if ids == [] || ids[0] == id then 0 else 1 + FirstAt(ids[1..], id)
  }

  lemma {:induction false} FirstAtPrefix(ids: seq<nat>, last: nat, id: nat)
    ensures id in ids ==> FirstAt(ids + [last], id) == FirstAt(ids, id) < |ids|
    ensures id !in ids ==> FirstAt(ids + [last], id) >= |ids|
  {
    if ids == [] {
      assert [] + [last] == [last];
    } else {
      TailOfConcat(ids, [last]);
      FirstAtPrefix(ids[1..], last, id);
      Uncons(ids);
    }
  }

  ghost predicate ByFirst(ids: seq<nat>, wanted: seq<nat>) {
    forall p, q :: 0 <= p < q < |wanted| ==> FirstAt(ids, wanted[p]) < FirstAt(ids, wanted[q])
  }

  lemma ByFirstMore(ids: seq<nat>, wanted: seq<nat>, last: nat)
    requires ByFirst(ids, wanted) && forall k :: 0 <= k < |wanted| ==> wanted[k] in ids
    ensures ByFirst(ids + [last], wanted)
    ensures last !in ids ==> ByFirst(ids + [last], wanted + [last])
  {
    forall k | 0 <= k < |wanted|
      ensures FirstAt(ids + [last], wanted[k]) == FirstAt(ids, wanted[k]) < |ids|
    {
      FirstAtPrefix(ids, last, wanted[k]);
    }
    FirstAtPrefix(ids, last, last);
  }

  /** The wanted segments are the ones asked for, each once, in the order in which they were first named. */
  lemma {:induction false} DistinctIsByFirst(ids: seq<nat>)
    ensures var wanted := Distinct(ids);
            NoDup(wanted) && (forall id :: id in wanted <==> id in ids) && ByFirst(ids, wanted)
    decreases |ids|
  {
    if ids != [] {
      var init, last := ids[..|ids| - 1], ids[|ids| - 1];
      assert ids == init + [last];
      DistinctIsByFirst(init);
      ByFirstMore(init, Distinct(init), last);
      if last !in Distinct(init) { NoDupConcat(Distinct(init), [last]); }
    }
  }

  /** A job is started exactly if it is asked for one to five different segments, all stored; it records their present
      sources and translations, and nothing else changes. */
  lemma StartRecords(s: State, ids: seq<nat>)
    ensures var t, wanted := Step(s, Start(ids)), Distinct(ids);
            && (|t.jobs| == |s.jobs| + 1 <==>
                  1 <= |wanted| <= 5 && forall id :: id in ids ==> id in s.segments)
            && (|t.jobs| == |s.jobs| ==> t == s)
            && (|t.jobs| == |s.jobs| + 1 ==>
                  && t.(jobs := s.jobs) == s && t.jobs[..|s.jobs|] == s.jobs
                  && var job := t.jobs[|s.jobs|];
                     && |job.items| == |job.outcomes| == |wanted| && !job.applied
                     && (forall k :: 0 <= k < |wanted| ==>
                           && wanted[k] in s.segments && job.outcomes[k].Open?
                           && job.items[k] == Item(wanted[k], s.segments[wanted[k]].dst, s.segments[wanted[k]].source)))
            && |t.jobs| <= |s.jobs| + 1
  {
    var wanted := Distinct(ids);
    DistinctIsByFirst(ids);
    if wanted != [] && |wanted| <= 5 && forall id :: id in ids ==> id in s.segments {
      assert forall k :: 0 <= k < |wanted| ==> wanted[k] in wanted && wanted[k] in s.segments;
    }
  }

  // ---- syncing late

  /** A result that a late sync is to store: its segment has the recorded translation, and, if it is the only one of
      its job, the recorded source. */
  ghost predicate Due(segments: map<nat, Segment>, job: Job, k: nat) {
    && k < |job.items| == |job.outcomes| && job.outcomes[k].Done?
    && job.items[k].id in segments && segments[job.items[k].id].dst == job.items[k].original
    && (|job.items| > 1 || segments[job.items[k].id].source == job.items[k].source)
  }

  /** The save that raises is of a subtask with a due result. */
  ghost predicate Raises(segments: map<nat, Segment>, job: Job, failing: Option<nat>) {
    failing.Some? && exists k: nat :: Due(segments, job, k) && segments[job.items[k].id].home == failing.value
  }

  lemma DueIsPending(segments: map<nat, Segment>, job: Job, failing: Option<nat>)
    requires Shaped(job)
    ensures forall k :: 0 <= k < |job.items| ==> PendingFlags(segments, job)[k] == Due(segments, job, k)
    ensures Breaks(segments, job, PendingFlags(segments, job), failing) <==> Raises(segments, job, failing)
  {
    var flags := PendingFlags(segments, job);
    forall k | 0 <= k < |job.items| ensures flags[k] == Due(segments, job, k) { }
    if Raises(segments, job, failing) {
      var k: nat :| Due(segments, job, k) && segments[job.items[k].id].home == failing.value;
      assert flags[k] && InSubtask(segments, job.items[k], failing.value);
    }
    if Breaks(segments, job, flags, failing) {
      var k :| 0 <= k < |flags| && flags[k] && InSubtask(segments, job.items[k], failing.value);
      assert Due(segments, job, k);
    }
  }

  /** A late sync of a job stores every due result - all of them, or if a save raises those in the subtasks before - and
      the job then counts as applied exactly if none did. Nothing else about the job changes. */
  lemma SyncStoresDue(first: map<nat, Segment>, s: State, j: nat, failing: Option<nat>, k: nat)
    requires StateOk(first, s, false) && j < |s.jobs| && !s.jobs[j].applied
    requires k < |s.jobs[j].items| && s.jobs[j].items[k].id in s.segments
    ensures var job, t := s.jobs[j], Step(s, Sync(j, failing));
            var id, raises := job.items[k].id, Raises(s.segments, job, failing);
            var current := s.segments[id];
            && id in t.segments && |t.jobs| == |s.jobs| && |job.outcomes| == |job.items|
            && t.segments[id] == (if Due(s.segments, job, k) && (raises ==> current.home < failing.value)
                                  then Segment(current.source, job.outcomes[k].result, current.home) else current)
            && t.jobs[j] == job.(applied := !raises)
  {
    var job := s.jobs[j];
    var flags, l, id := PendingFlags(s.segments, job), Ledger(s.segments, s.history), job.items[k].id;
    DueIsPending(s.segments, job, failing);
    var n := SavedCount(s.segments, job, flags, failing, s.subtasks);
    if flags[k] && s.segments[id].home < n {
      SaveItem(l, j, job, flags, 0, n, k);
    } else {
      SaveOthers(l, j, job, flags, 0, n, id);
    }
  }

  /** And no segment that is not the job's is touched. */
  lemma SyncLeavesOthers(first: map<nat, Segment>, s: State, j: nat, failing: Option<nat>, id: nat)
    requires StateOk(first, s, false) && j < |s.jobs| && !s.jobs[j].applied && id in s.segments
    requires forall k :: 0 <= k < |s.jobs[j].items| ==> s.jobs[j].items[k].id != id
    ensures id in Step(s, Sync(j, failing)).segments && Step(s, Sync(j, failing)).segments[id] == s.segments[id]
  {
    var job := s.jobs[j];
    var flags := PendingFlags(s.segments, job);
    SaveOthers(Ledger(s.segments, s.history), j, job, flags, 0, SavedCount(s.segments, job, flags, failing, s.subtasks), id);
  }
}
