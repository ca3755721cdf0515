/** Concurrent retranslation jobs on one task (transoria/bridge/task_service.py): a job remembers the
    translations it started from and writes a segment only while that is still what is stored.
    Each step is one region under the task lock. */
module Retranslate {
  import opened Lists
  import opened TextRules

  /** `home` is the place, in the task, of the subtask that holds the segment: a subtask is one file. */
  datatype Segment = Segment(source: string, dst: string, home: nat)

  /** What a job recorded about a segment when it was started. Hashes are taken to be injective. */
  datatype Item = Item(id: nat, original: string, source: string)

  datatype Outcome = Open | Done(result: string) | Stale | Skipped | Unresolved | Failed

  /** `applied` is `cache_applied`. */
  datatype Job = Job(items: seq<Item>, outcomes: seq<Outcome>, applied: bool)

  /** One write to a segment; `author` is the job's index and the item's, or nothing for an edit by hand. */
  datatype Write = Write(id: nat, from: string, to: string, author: Option<(nat, nat)>)

  /** A task of `subtasks` subtasks. */
  datatype State = State(subtasks: nat, segments: map<nat, Segment>, jobs: seq<Job>, history: seq<Write>)

  datatype Action =
    | Start(ids: seq<nat>)
    | Load(job: Job)
    | Screen(j: nat)
    | Abandon(j: nat, outcome: Outcome)
    | Apply(j: nat, results: map<nat, string>, approved: set<nat>, failing: Option<nat>)
    | Sync(j: nat, failing: Option<nat>)
    | Edit(id: nat, dst: string)
    | ChangeSource(id: nat, source: string)
    | Drop(id: nat)

  // ---- starting

  /** `dict.fromkeys`. */
  function Distinct(ids: seq<nat>): seq<nat> {
    if ids == [] then []
    else
      var init, last := Distinct(ids[..|ids| - 1]), ids[|ids| - 1];
      if last in init then init else init + [last]
  }

  function Recorded(segments: map<nat, Segment>, ids: seq<nat>): seq<Item>
    requires forall k :: 0 <= k < |ids| ==> ids[k] in segments
  {
    seq(|ids|, k requires 0 <= k < |ids| => Item(ids[k], segments[ids[k]].dst, segments[ids[k]].source))
  }

  function AllOpen(n: nat): seq<Outcome> {
    seq(n, _ => Open)
  }

  // ---- judging one item

  predicate Changed(segments: map<nat, Segment>, item: Item) {
    item.id !in segments || segments[item.id].source != item.source
  }

  /** The pass before the model is asked. */
  function Screened(segments: map<nat, Segment>, item: Item): Outcome {
    if Changed(segments, item) then Skipped
    else if segments[item.id].dst != item.original then Stale
    else Open
  }

  /** The pass that writes: `approved` stands for the checks that do not look at the store. */
  function Judged(segments: map<nat, Segment>, item: Item, result: string, approved: bool): Outcome {
    if Changed(segments, item) then Skipped
    else if segments[item.id].dst != item.original then Stale
    else if result == item.original || !approved then Unresolved
    else Done(result)
  }

  /** A late sync of a finished job writes this item; a job of one segment also compares its source. */
  predicate Pending(segments: map<nat, Segment>, job: Job, i: nat)
    requires i < |job.items| == |job.outcomes|
  {
    var item := job.items[i];
    job.outcomes[i].Done? && item.id in segments && segments[item.id].dst == item.original
    && (|job.items| == 1 ==> segments[item.id].source == item.source)
  }

  // ---- writing

  datatype Ledger = Ledger(segments: map<nat, Segment>, history: seq<Write>)

  function WriteOne(l: Ledger, w: Write): Ledger
    requires w.id in l.segments
  {
    Ledger(l.segments[w.id := l.segments[w.id].(dst := w.to)], l.history + [w])
  }

  /** Every completed item of the job whose flag is up is written, with its result. */
  function WriteAll(l: Ledger, j: nat, job: Job, flags: seq<bool>, i: nat := 0): Ledger
    requires |flags| == |job.items| == |job.outcomes| && i <= |flags|
    decreases |flags| - i
  {
    if i == |flags| then l
    else
      var item := job.items[i];
      WriteAll(if flags[i] && job.outcomes[i].Done? && item.id in l.segments
               then WriteOne(l, Write(item.id, l.segments[item.id].dst, job.outcomes[i].result, Some((j, i)))) else l,
               j, job, flags, i + 1)
  }

  predicate Shaped(job: Job) {
    |job.items| == |job.outcomes|
  }

  /** The flagged items whose segments are in subtask `h`. */
  function FlagsIn(segments: map<nat, Segment>, job: Job, flags: seq<bool>, h: nat): (r: seq<bool>)
    requires |flags| == |job.items|
    ensures |r| == |flags|
  {
    seq(|flags|, i requires 0 <= i < |flags| => flags[i] && InSubtask(segments, job.items[i], h))
  }

  predicate InSubtask(segments: map<nat, Segment>, item: Item, h: nat) {
    item.id in segments && segments[item.id].home == h
  }

  /** The subtasks from `h` on and before `n` are saved, each with all its flagged items. */
  function SaveFrom(l: Ledger, j: nat, job: Job, flags: seq<bool>, h: nat, n: nat): Ledger
    requires |flags| == |job.items| == |job.outcomes| && h <= n
    decreases n - h
  {
    if h == n then l else SaveFrom(WriteAll(l, j, job, FlagsIn(l.segments, job, flags, h)), j, job, flags, h + 1, n)
  }

  /** Subtask `failing` has to be saved, which raises. */
  predicate Breaks(segments: map<nat, Segment>, job: Job, flags: seq<bool>, failing: Option<nat>)
    requires |flags| == |job.items|
  {
    failing.Some? && exists i | 0 <= i < |flags| :: flags[i] && InSubtask(segments, job.items[i], failing.value)
  }

  /** How many subtasks are gone through before the end or the failure. */
  function SavedCount(segments: map<nat, Segment>, job: Job, flags: seq<bool>, failing: Option<nat>, subtasks: nat): nat
    requires |flags| == |job.items|
  {
    if Breaks(segments, job, flags, failing) then failing.value else subtasks
  }

  /** The outcomes of the items that were still open. */
  function JudgeAll(segments: map<nat, Segment>, job: Job, results: map<nat, string>, approved: set<nat>): (r: Job)
    requires Shaped(job) && forall i :: 0 <= i < |job.items| && job.outcomes[i].Open? ==> job.items[i].id in results
    ensures Shaped(r)
  {
    job.(applied := true, outcomes := seq(|job.items|, i requires 0 <= i < |job.items| =>
      if !job.outcomes[i].Open? then job.outcomes[i]
      else Judged(segments, job.items[i], results[job.items[i].id], job.items[i].id in approved)))
  }

  /** A failed save makes each success a failure, saved or not. */
  function FailAll(job: Job, flags: seq<bool>): (r: Job)
    requires Shaped(job) && |flags| == |job.items|
    ensures Shaped(r)
  {
    job.(outcomes := seq(|job.items|, i requires 0 <= i < |job.items| => if flags[i] then Failed else job.outcomes[i]))
  }

  /** The items that were open and are now done. */
  function NewlyDone(before: Job, after: Job): seq<bool>
    requires Shaped(before) && Shaped(after) && |before.items| == |after.items|
  {
    seq(|before.items|, i requires 0 <= i < |before.items| => before.outcomes[i].Open? && after.outcomes[i].Done?)
  }

  function PendingFlags(segments: map<nat, Segment>, job: Job): seq<bool>
    requires Shaped(job)
  {
    seq(|job.items|, i requires 0 <= i < |job.items| => Pending(segments, job, i))
  }

  /** The flagged results of `job` are saved as far as it goes; then job `j` is `after`. */
  function Commit(s: State, j: nat, job: Job, flags: seq<bool>, failing: Option<nat>, after: Job): State
    requires j < |s.jobs| && Shaped(job) && |flags| == |job.items|
  {
    var l := SaveFrom(Ledger(s.segments, s.history), j, job, flags, 0, SavedCount(s.segments, job, flags, failing, s.subtasks));
    State(s.subtasks, l.segments, s.jobs[j := after], l.history)
  }

  predicate Ready(job: Job, results: map<nat, string>) {
    Shaped(job) && forall i | 0 <= i < |job.items| :: job.outcomes[i].Open? ==> job.items[i].id in results
  }

  function Screening(segments: map<nat, Segment>, job: Job): Job
    requires Shaped(job)
  {
    job.(outcomes := seq(|job.items|, i requires 0 <= i < |job.items| =>
      if job.outcomes[i].Open? then Screened(segments, job.items[i]) else job.outcomes[i]))
  }

  function Abandoned(job: Job, outcome: Outcome): Job
    requires Shaped(job)
  {
    job.(outcomes := seq(|job.items|, i requires 0 <= i < |job.items| =>
      if job.outcomes[i].Open? then outcome else job.outcomes[i]))
  }

  function Step(s: State, a: Action): State {
    match a
    case Start(ids) =>
      var wanted := Distinct(ids);
      if wanted == [] || |wanted| > 5 || exists k | 0 <= k < |wanted| :: wanted[k] !in s.segments then s
      else s.(jobs := s.jobs + [Job(Recorded(s.segments, wanted), AllOpen(|wanted|), false)])
    case Load(job) => if Shaped(job) && NoDupIds(job.items) then s.(jobs := s.jobs + [job]) else s
    case Screen(j) =>
      if j < |s.jobs| && Shaped(s.jobs[j]) then s.(jobs := s.jobs[j := Screening(s.segments, s.jobs[j])]) else s
    case Abandon(j, outcome) =>
      if j < |s.jobs| && Shaped(s.jobs[j]) && !outcome.Done? && !outcome.Open?
      then s.(jobs := s.jobs[j := Abandoned(s.jobs[j], outcome)]) else s
    case Apply(j, results, approved, failing) =>
      if j < |s.jobs| && Ready(s.jobs[j], results) then
        var job := JudgeAll(s.segments, s.jobs[j], results, approved);
        var flags := NewlyDone(s.jobs[j], job);
        Commit(s, j, job, flags, failing, if Breaks(s.segments, job, flags, failing) then FailAll(job, flags) else job)
      else s
    case Sync(j, failing) =>
      if j < |s.jobs| && Shaped(s.jobs[j]) && !s.jobs[j].applied then
        var job, flags := s.jobs[j], PendingFlags(s.segments, s.jobs[j]);
        Commit(s, j, job, flags, failing, if Breaks(s.segments, job, flags, failing) then job else job.(applied := true))
      else s
    case Edit(id, dst) =>
      if id in s.segments
      then s.(segments := s.segments[id := s.segments[id].(dst := dst)],
              history := s.history + [Write(id, s.segments[id].dst, dst, None)]) else s
    case ChangeSource(id, source) =>
      if id in s.segments then s.(segments := s.segments[id := s.segments[id].(source := source)]) else s
    case Drop(id) => s.(segments := s.segments - {id})
  }

  function Run(s: State, actions: seq<Action>): State
    decreases |actions|
  {
    if actions == [] then s else Run(Step(s, actions[0]), actions[1..])
  }

  // ---- the invariant

  predicate NoDupIds(items: seq<Item>) {
    forall i, k :: 0 <= i < k < |items| ==> items[i].id != items[k].id
  }

  /** The writes to a segment lead from one value to the other, each starting where the one before ended. */
  predicate Chained(history: seq<Write>, id: nat, from: string, to: string)
    decreases |history|
  {
    if history == [] then from == to
    else
      var last, init := history[|history| - 1], history[..|history| - 1];
      if last.id == id then last.to == to && Chained(init, id, from, last.from) else Chained(init, id, from, to)
  }

  /** The write leads from the recorded original to the result with which the item completed, or, unless
      `strict`, the item failed to be saved together with others. */
  predicate Authored(w: Write, jobs: seq<Job>, strict: bool) {
    w.author.Some? ==>
      var (j, i) := w.author.value;
      && j < |jobs| && Shaped(jobs[j]) && i < |jobs[j].items|
      && jobs[j].items[i].id == w.id && jobs[j].items[i].original == w.from
      && (jobs[j].outcomes[i] == Done(w.to) || (!strict && jobs[j].outcomes[i].Failed?))
  }

  ghost predicate AllAuthored(history: seq<Write>, jobs: seq<Job>, strict: bool) {
    forall k :: 0 <= k < |history| ==> Authored(history[k], jobs, strict)
  }

  ghost predicate JobsOk(jobs: seq<Job>) {
    forall j :: 0 <= j < |jobs| ==> Shaped(jobs[j]) && NoDupIds(jobs[j].items)
  }

  ghost predicate AllChained(first: map<nat, Segment>, l: Ledger) {
    l.segments.Keys <= first.Keys &&
    forall id :: id in l.segments ==> Chained(l.history, id, first[id].dst, l.segments[id].dst)
  }

  ghost predicate HomesOk(segments: map<nat, Segment>, subtasks: nat) {
    forall id :: id in segments ==> segments[id].home < subtasks
  }

  ghost predicate StateOk(first: map<nat, Segment>, s: State, strict: bool) {
    && JobsOk(s.jobs) && HomesOk(s.segments, s.subtasks)
    && AllChained(first, Ledger(s.segments, s.history)) && AllAuthored(s.history, s.jobs, strict)
  }

  lemma ChainedMore(history: seq<Write>, w: Write, id: nat, from: string)
    ensures w.id == id ==> (Chained(history + [w], id, from, w.to) <==> Chained(history, id, from, w.from))
    ensures w.id != id ==> forall to :: Chained(history + [w], id, from, to) <==> Chained(history, id, from, to)
  {
    var more := history + [w];
    assert more[..|more| - 1] == history && more[|more| - 1] == w;
  }

  lemma WriteOneOk(first: map<nat, Segment>, l: Ledger, w: Write)
    requires AllChained(first, l) && w.id in l.segments && w.from == l.segments[w.id].dst
    ensures AllChained(first, WriteOne(l, w))
  {
    var m := WriteOne(l, w);
    forall id | id in m.segments ensures Chained(m.history, id, first[id].dst, m.segments[id].dst) {
      assert id in l.segments;
      ChainedMore(l.history, w, id, first[id].dst);
    }
  }

  /** Jobs that keep their items and their completed outcomes keep their writes. */
  ghost predicate Extends(jobs: seq<Job>, more: seq<Job>) {
    |jobs| <= |more| && forall j :: 0 <= j < |jobs| ==> Keeps(jobs[j], more[j])
  }

  ghost predicate Keeps(job: Job, more: Job) {
    Shaped(job) ==>
      && Shaped(more) && more.items == job.items
      && forall i :: 0 <= i < |job.items| && !job.outcomes[i].Open? ==> more.outcomes[i] == job.outcomes[i]
  }

  lemma AuthoredExtends(history: seq<Write>, jobs: seq<Job>, more: seq<Job>, strict: bool)
    requires AllAuthored(history, jobs, strict) && Extends(jobs, more)
    ensures AllAuthored(history, more, strict)
  {
    forall k | 0 <= k < |history| ensures Authored(history[k], more, strict) {
      var w := history[k];
      assert Authored(w, jobs, strict);
      if w.author.Some? {
        var j := w.author.value.0;
        assert Keeps(jobs[j], more[j]);
      }
    }
  }

  /** Every flagged item is completed and stored with its original. */
  ghost predicate Flagged(segments: map<nat, Segment>, job: Job, flags: seq<bool>, i: nat) {
    && |flags| == |job.items| == |job.outcomes| && i <= |flags|
    && forall k :: i <= k < |flags| && flags[k] ==>
         && job.outcomes[k].Done? && job.items[k].id in segments
         && segments[job.items[k].id].dst == job.items[k].original
  }

  lemma FlaggedRest(l: Ledger, j: nat, job: Job, flags: seq<bool>, i: nat)
    requires Flagged(l.segments, job, flags, i) && NoDupIds(job.items) && i < |flags| && flags[i]
    ensures var w := Write(job.items[i].id, job.items[i].original, job.outcomes[i].result, Some((j, i)));
            Flagged(WriteOne(l, w).segments, job, flags, i + 1)
  {
    assert forall k :: i < k < |flags| ==> job.items[k].id != job.items[i].id;
  }

  /** Job `after` owns up to the flagged results of `job`. */
  ghost predicate OwnsUp(after: Job, job: Job, flags: seq<bool>, strict: bool) {
    && Shaped(after) && Shaped(job) && after.items == job.items && |flags| == |job.items| && NoDupIds(job.items)
    && forall k :: 0 <= k < |flags| && flags[k] ==>
         after.outcomes[k] == job.outcomes[k] || (!strict && after.outcomes[k].Failed?)
  }

  lemma {:induction false} WriteAllOk(first: map<nat, Segment>, l: Ledger, jobs: seq<Job>, j: nat, job: Job, flags: seq<bool>,
                                      i: nat, strict: bool)
    requires AllChained(first, l) && AllAuthored(l.history, jobs, strict)
    requires j < |jobs| && OwnsUp(jobs[j], job, flags, strict) && Flagged(l.segments, job, flags, i)
    ensures AllChained(first, WriteAll(l, j, job, flags, i)) && AllAuthored(WriteAll(l, j, job, flags, i).history, jobs, strict)
    decreases |flags| - i
  {
    if i < |flags| {
      if flags[i] {
        var item := job.items[i];
        var w := Write(item.id, item.original, job.outcomes[i].result, Some((j, i)));
        WriteOneOk(first, l, w);
        FlaggedRest(l, j, job, flags, i);
        assert Authored(w, jobs, strict);
        WriteAllOk(first, WriteOne(l, w), jobs, j, job, flags, i + 1, strict);
      } else {
        WriteAllOk(first, l, jobs, j, job, flags, i + 1, strict);
      }
    }
  }

  // ---- what saving does to one segment

  ghost predicate SameButDst(before: map<nat, Segment>, after: map<nat, Segment>) {
    && after.Keys == before.Keys
    && forall id :: id in before ==> after[id].source == before[id].source && after[id].home == before[id].home
  }

  lemma {:induction false} WriteAllSame(l: Ledger, j: nat, job: Job, flags: seq<bool>, i: nat)
    requires |flags| == |job.items| == |job.outcomes| && i <= |flags|
    ensures SameButDst(l.segments, WriteAll(l, j, job, flags, i).segments) && l.history <= WriteAll(l, j, job, flags, i).history
    decreases |flags| - i
  {
    if i < |flags| {
      var id := job.items[i].id;
      if flags[i] && job.outcomes[i].Done? && id in l.segments {
        WriteAllSame(WriteOne(l, Write(id, l.segments[id].dst, job.outcomes[i].result, Some((j, i)))), j, job, flags, i + 1);
      } else {
        WriteAllSame(l, j, job, flags, i + 1);
      }
    }
  }

  lemma {:induction false} WriteAllOthers(l: Ledger, j: nat, job: Job, flags: seq<bool>, i: nat, id: nat)
    requires |flags| == |job.items| == |job.outcomes| && i <= |flags| && id in l.segments
    requires forall k :: i <= k < |flags| && flags[k] ==> job.items[k].id != id
    ensures var m := WriteAll(l, j, job, flags, i); id in m.segments && m.segments[id] == l.segments[id]
    decreases |flags| - i
  {
    if i < |flags| {
      var x := job.items[i].id;
      if flags[i] && job.outcomes[i].Done? && x in l.segments {
        WriteAllOthers(WriteOne(l, Write(x, l.segments[x].dst, job.outcomes[i].result, Some((j, i)))), j, job, flags, i + 1, id);
      } else {
        WriteAllOthers(l, j, job, flags, i + 1, id);
      }
    }
  }

  predicate OnRecord(history: seq<Write>, j: nat, k: nat) {
    exists n | 0 <= n < |history| :: history[n].author == Some((j, k))
  }

  lemma {:induction false} WriteAllItem(l: Ledger, j: nat, job: Job, flags: seq<bool>, i: nat, k: nat)
    requires |flags| == |job.items| == |job.outcomes| && i <= k < |flags| && NoDupIds(job.items)
    requires flags[k] && job.outcomes[k].Done? && job.items[k].id in l.segments
    ensures var m, id := WriteAll(l, j, job, flags, i), job.items[k].id;
            && id in m.segments && m.segments[id] == l.segments[id].(dst := job.outcomes[k].result)
            && OnRecord(m.history, j, k)
    decreases |flags| - i
  {
    var x := job.items[i].id;
    var m := if flags[i] && job.outcomes[i].Done? && x in l.segments
             then WriteOne(l, Write(x, l.segments[x].dst, job.outcomes[i].result, Some((j, i)))) else l;
    if i < k {
      WriteAllItem(m, j, job, flags, i + 1, k);
    } else {
      WriteAllOthers(m, j, job, flags, i + 1, x);
      WriteAllSame(m, j, job, flags, i + 1);
      assert m.history[|l.history|].author == Some((j, k));
    }
  }

  lemma {:induction false} SaveSame(l: Ledger, j: nat, job: Job, flags: seq<bool>, h: nat, n: nat)
    requires |flags| == |job.items| == |job.outcomes| && h <= n
    ensures SameButDst(l.segments, SaveFrom(l, j, job, flags, h, n).segments)
    ensures l.history <= SaveFrom(l, j, job, flags, h, n).history
    decreases n - h
  {
    if h < n {
      var m := WriteAll(l, j, job, FlagsIn(l.segments, job, flags, h));
      WriteAllSame(l, j, job, FlagsIn(l.segments, job, flags, h), 0);
      SaveSame(m, j, job, flags, h + 1, n);
    }
  }

  /** A segment that is no flagged item's, or not in the subtasks saved, is left alone. */
  lemma {:induction false} SaveOthers(l: Ledger, j: nat, job: Job, flags: seq<bool>, h: nat, n: nat, id: nat)
    requires |flags| == |job.items| == |job.outcomes| && h <= n && id in l.segments
    requires !(h <= l.segments[id].home < n) || forall k :: 0 <= k < |flags| && flags[k] ==> job.items[k].id != id
    ensures var m := SaveFrom(l, j, job, flags, h, n); id in m.segments && m.segments[id] == l.segments[id]
    decreases n - h
  {
    if h < n {
      var some := FlagsIn(l.segments, job, flags, h);
      WriteAllOthers(l, j, job, some, 0, id);
      SaveOthers(WriteAll(l, j, job, some), j, job, flags, h + 1, n, id);
    }
  }

  lemma NotInLater(l: Ledger, j: nat, job: Job, flags: seq<bool>, h: nat, k: nat)
    requires |flags| == |job.items| == |job.outcomes| && k < |flags| && NoDupIds(job.items)
    requires job.items[k].id in l.segments && l.segments[job.items[k].id].home != h
    ensures var m, id := WriteAll(l, j, job, FlagsIn(l.segments, job, flags, h)), job.items[k].id;
            id in m.segments && m.segments[id] == l.segments[id]
  {
    var some := FlagsIn(l.segments, job, flags, h);
    forall i | 0 <= i < |some| && some[i] ensures job.items[i].id != job.items[k].id {
      assert InSubtask(l.segments, job.items[i], h);
    }
    WriteAllOthers(l, j, job, some, 0, job.items[k].id);
  }

  /** A flagged item in a subtask that is saved is stored, and the write is on record. */
  lemma {:induction false} SaveItem(l: Ledger, j: nat, job: Job, flags: seq<bool>, h: nat, n: nat, k: nat)
    requires |flags| == |job.items| == |job.outcomes| && k < |flags| && NoDupIds(job.items)
    requires flags[k] && job.outcomes[k].Done? && job.items[k].id in l.segments && h <= l.segments[job.items[k].id].home < n
    ensures var m, id := SaveFrom(l, j, job, flags, h, n), job.items[k].id;
            && id in m.segments && m.segments[id] == l.segments[id].(dst := job.outcomes[k].result)
            && OnRecord(m.history, j, k)
    decreases n - h
  {
    var id, some := job.items[k].id, FlagsIn(l.segments, job, flags, h);
    var m := WriteAll(l, j, job, some);
    if l.segments[id].home == h {
      WriteAllItem(l, j, job, some, 0, k);
      SaveOthers(m, j, job, flags, h + 1, n, id);
      SaveSame(m, j, job, flags, h + 1, n);
      var i :| 0 <= i < |m.history| && m.history[i].author == Some((j, k));
      assert SaveFrom(l, j, job, flags, h, n).history[i] == m.history[i];
    } else {
      NotInLater(l, j, job, flags, h, k);
      SaveItem(m, j, job, flags, h + 1, n, k);
    }
  }

  // ---- saving keeps the invariant

  /** What the flagged items are by the time subtask `h` comes. */
  ghost predicate FlaggedFrom(segments: map<nat, Segment>, job: Job, flags: seq<bool>, h: nat) {
    && |flags| == |job.items| == |job.outcomes|
    && forall k :: 0 <= k < |flags| && flags[k] ==>
         && job.outcomes[k].Done? && job.items[k].id in segments
         && (segments[job.items[k].id].home >= h ==> segments[job.items[k].id].dst == job.items[k].original)
  }

  lemma FlaggedLater(l: Ledger, j: nat, job: Job, flags: seq<bool>, h: nat)
    requires FlaggedFrom(l.segments, job, flags, h) && NoDupIds(job.items)
    ensures FlaggedFrom(WriteAll(l, j, job, FlagsIn(l.segments, job, flags, h)).segments, job, flags, h + 1)
  {
    WriteAllSame(l, j, job, FlagsIn(l.segments, job, flags, h), 0);
    forall k | 0 <= k < |flags| && flags[k] && l.segments[job.items[k].id].home > h
      ensures var m := WriteAll(l, j, job, FlagsIn(l.segments, job, flags, h));
              m.segments[job.items[k].id].dst == job.items[k].original
    {
      NotInLater(l, j, job, flags, h, k);
    }
  }

  lemma {:induction false} SaveOk(first: map<nat, Segment>, l: Ledger, jobs: seq<Job>, j: nat, job: Job, flags: seq<bool>,
                                  h: nat, n: nat, strict: bool)
    requires AllChained(first, l) && AllAuthored(l.history, jobs, strict) && h <= n
    requires j < |jobs| && FlaggedFrom(l.segments, job, flags, h)
    requires OwnsUp(jobs[j], job, flags, strict)
    ensures AllChained(first, SaveFrom(l, j, job, flags, h, n))
    ensures AllAuthored(SaveFrom(l, j, job, flags, h, n).history, jobs, strict)
    decreases n - h
  {
    if h < n {
      var some := FlagsIn(l.segments, job, flags, h);
      WriteAllOk(first, l, jobs, j, job, some, 0, strict);
      FlaggedLater(l, j, job, flags, h);
      SaveOk(first, WriteAll(l, j, job, some), jobs, j, job, flags, h + 1, n, strict);
    }
  }

  // ---- steps

  lemma {:induction false} DistinctNoDup(ids: seq<nat>)
    ensures NoDup(Distinct(ids))
  {
    if ids != [] {
      var init, last := Distinct(ids[..|ids| - 1]), ids[|ids| - 1];
      DistinctNoDup(ids[..|ids| - 1]);
      if last !in init { NoDupConcat(init, [last]); }
    }
  }

  lemma MoreJobsOk(first: map<nat, Segment>, s: State, jobs: seq<Job>, strict: bool)
    requires StateOk(first, s, strict) && JobsOk(jobs) && Extends(s.jobs, jobs)
    ensures StateOk(first, s.(jobs := jobs), strict)
  {
    AuthoredExtends(s.history, s.jobs, jobs, strict);
  }

  lemma StartOk(first: map<nat, Segment>, s: State, ids: seq<nat>, strict: bool)
    requires StateOk(first, s, strict)
    ensures StateOk(first, Step(s, Start(ids)), strict)
  {
    var t := Step(s, Start(ids));
    if t != s {
      DistinctNoDup(ids);
      MoreJobsOk(first, s, t.jobs, strict);
    }
  }

  lemma EditOk(first: map<nat, Segment>, s: State, id: nat, dst: string, strict: bool)
    requires StateOk(first, s, strict) && id in s.segments
    ensures StateOk(first, Step(s, Edit(id, dst)), strict)
  {
    var w := Write(id, s.segments[id].dst, dst, None);
    WriteOneOk(first, Ledger(s.segments, s.history), w);
    assert Authored(w, s.jobs, strict);
  }

  lemma CommitOk(first: map<nat, Segment>, s: State, j: nat, job: Job, flags: seq<bool>, failing: Option<nat>, after: Job,
                 strict: bool)
    requires StateOk(first, s, strict) && j < |s.jobs| && Keeps(s.jobs[j], after) && FlaggedFrom(s.segments, job, flags, 0)
    requires OwnsUp(after, job, flags, strict)
    ensures StateOk(first, Commit(s, j, job, flags, failing, after), strict)
  {
    var jobs, n := s.jobs[j := after], SavedCount(s.segments, job, flags, failing, s.subtasks);
    AuthoredExtends(s.history, s.jobs, jobs, strict);
    SaveOk(first, Ledger(s.segments, s.history), jobs, j, job, flags, 0, n, strict);
    SaveSame(Ledger(s.segments, s.history), j, job, flags, 0, n);
  }

  /** A save fails after another one has succeeded. */
  predicate Splits(segments: map<nat, Segment>, job: Job, flags: seq<bool>, failing: Option<nat>)
    requires |flags| == |job.items|
  {
    && Breaks(segments, job, flags, failing)
    && exists i | 0 <= i < |flags| :: flags[i] && job.items[i].id in segments && segments[job.items[i].id].home < failing.value
  }

  /** This step is such a save, of results that have not completed yet. */
  predicate SplitStep(s: State, a: Action) {
    a.Apply? && a.j < |s.jobs| && Ready(s.jobs[a.j], a.results) &&
    var job := JudgeAll(s.segments, s.jobs[a.j], a.results, a.approved);
    Splits(s.segments, job, NewlyDone(s.jobs[a.j], job), a.failing)
  }

  lemma AppliedFlags(segments: map<nat, Segment>, before: Job, results: map<nat, string>, approved: set<nat>)
    requires Ready(before, results)
    ensures var job := JudgeAll(segments, before, results, approved);
            FlaggedFrom(segments, job, NewlyDone(before, job), 0) && Keeps(before, job)
    ensures var job := JudgeAll(segments, before, results, approved);
            var flags := NewlyDone(before, job);
            Keeps(before, FailAll(job, flags))
  {
  }

  /** Nothing at all is saved when the first save fails. */
  lemma {:induction false} SavesNothing(l: Ledger, j: nat, job: Job, flags: seq<bool>, h: nat, n: nat)
    requires |flags| == |job.items| == |job.outcomes| && h <= n
    requires forall i :: 0 <= i < |flags| && flags[i] && job.items[i].id in l.segments ==> l.segments[job.items[i].id].home >= n
    ensures SaveFrom(l, j, job, flags, h, n) == l
    decreases n - h
  {
    if h < n {
      var none := FlagsIn(l.segments, job, flags, h);
      NothingFlagged(l, j, job, none, 0);
      SavesNothing(l, j, job, flags, h + 1, n);
    }
  }

  lemma {:induction false} NothingFlagged(l: Ledger, j: nat, job: Job, flags: seq<bool>, i: nat)
    requires |flags| == |job.items| == |job.outcomes| && i <= |flags|
    requires forall k :: 0 <= k < |flags| ==> !flags[k]
    ensures WriteAll(l, j, job, flags, i) == l
    decreases |flags| - i
  {
    if i < |flags| { NothingFlagged(l, j, job, flags, i + 1); }
  }

  lemma ApplyOk(first: map<nat, Segment>, s: State, a: Action, strict: bool)
    requires StateOk(first, s, strict) && a.Apply? && (strict ==> !SplitStep(s, a))
    ensures StateOk(first, Step(s, a), strict)
  {
    if a.j < |s.jobs| && Ready(s.jobs[a.j], a.results) {
      var job := JudgeAll(s.segments, s.jobs[a.j], a.results, a.approved);
      var flags := NewlyDone(s.jobs[a.j], job);
      AppliedFlags(s.segments, s.jobs[a.j], a.results, a.approved);
      if !Breaks(s.segments, job, flags, a.failing) {
        CommitOk(first, s, a.j, job, flags, a.failing, job, strict);
      } else if !strict {
        CommitOk(first, s, a.j, job, flags, a.failing, FailAll(job, flags), strict);
      } else {
        SavesNothing(Ledger(s.segments, s.history), a.j, job, flags, 0, a.failing.value);
        MoreJobsOk(first, s, s.jobs[a.j := FailAll(job, flags)], strict);
      }
    }
  }

  lemma SyncOk(first: map<nat, Segment>, s: State, j: nat, failing: Option<nat>, strict: bool)
    requires StateOk(first, s, strict)
    ensures StateOk(first, Step(s, Sync(j, failing)), strict)
  {
    if j < |s.jobs| && !s.jobs[j].applied {
      var job, flags := s.jobs[j], PendingFlags(s.segments, s.jobs[j]);
      CommitOk(first, s, j, job, flags, failing,
               if Breaks(s.segments, job, flags, failing) then job else job.(applied := true), strict);
    }
  }

  lemma StepOk(first: map<nat, Segment>, s: State, a: Action, strict: bool)
    requires StateOk(first, s, strict) && (strict ==> !SplitStep(s, a))
    ensures StateOk(first, Step(s, a), strict)
  {
    match a {
      case Start(ids) => StartOk(first, s, ids, strict);
      case Apply(_, _, _, _) => ApplyOk(first, s, a, strict);
      case Sync(j, failing) => SyncOk(first, s, j, failing, strict);
      case Edit(id, dst) => if id in s.segments { EditOk(first, s, id, dst, strict); }
      case ChangeSource(id, source) =>
      case Drop(id) =>
      case _ => MoreJobsOk(first, s, Step(s, a).jobs, strict);
    }
  }

  /** Somewhere on the way a save fails after another one has succeeded. */
  predicate EverSplits(s: State, actions: seq<Action>)
    decreases |actions|
  {
    actions != [] && (SplitStep(s, actions[0]) || EverSplits(Step(s, actions[0]), actions[1..]))
  }

  lemma {:induction false} RunOk(first: map<nat, Segment>, s: State, actions: seq<Action>, strict: bool)
    requires StateOk(first, s, strict) && (strict ==> !EverSplits(s, actions))
    ensures StateOk(first, Run(s, actions), strict)
    decreases |actions|
  {
    if actions != [] {
      StepOk(first, s, actions[0], strict);
      RunOk(first, Step(s, actions[0]), actions[1..], strict);
    }
  }

  // ---- a split leaves its trace

  /** A write on record whose item counts as failed. */
  ghost predicate Disowned(s: State) {
    exists k: nat, j: nat, i: nat :: DisownedAt(s, k, j, i)
  }

  predicate DisownedAt(s: State, k: nat, j: nat, i: nat) {
    && k < |s.history| && s.history[k].author == Some((j, i)) && j < |s.jobs| && Shaped(s.jobs[j])
    && i < |s.jobs[j].outcomes| && s.jobs[j].outcomes[i].Failed?
  }

  lemma SplitDisowns(first: map<nat, Segment>, s: State, a: Action)
    requires StateOk(first, s, false) && SplitStep(s, a)
    ensures Disowned(Step(s, a))
  {
    var job := JudgeAll(s.segments, s.jobs[a.j], a.results, a.approved);
    var flags, l, t := NewlyDone(s.jobs[a.j], job), Ledger(s.segments, s.history), Step(s, a);
    var i :| 0 <= i < |flags| && flags[i] && job.items[i].id in s.segments && s.segments[job.items[i].id].home < a.failing.value;
    SaveItem(l, a.j, job, flags, 0, a.failing.value, i);
    var k :| 0 <= k < |t.history| && t.history[k].author == Some((a.j, i));
    assert DisownedAt(t, k, a.j, i);
  }

  lemma StepGrows(first: map<nat, Segment>, s: State, a: Action)
    requires StateOk(first, s, false)
    ensures s.history <= Step(s, a).history && Extends(s.jobs, Step(s, a).jobs)
  {
    match a
    case Apply(j, _, _, failing) =>
      if j < |s.jobs| && Ready(s.jobs[j], a.results) {
        var job := JudgeAll(s.segments, s.jobs[j], a.results, a.approved);
        var flags := NewlyDone(s.jobs[j], job);
        AppliedFlags(s.segments, s.jobs[j], a.results, a.approved);
        SaveSame(Ledger(s.segments, s.history), j, job, flags, 0, SavedCount(s.segments, job, flags, failing, s.subtasks));
      }
    case Sync(j, failing) =>
      if j < |s.jobs| && !s.jobs[j].applied {
        var job, flags := s.jobs[j], PendingFlags(s.segments, s.jobs[j]);
        SaveSame(Ledger(s.segments, s.history), j, job, flags, 0, SavedCount(s.segments, job, flags, failing, s.subtasks));
      }
    case _ =>
  }

  lemma StaysDisowned(first: map<nat, Segment>, s: State, a: Action)
    requires StateOk(first, s, false) && Disowned(s)
    ensures Disowned(Step(s, a))
  {
    var k: nat, j: nat, i: nat :| DisownedAt(s, k, j, i);
    StepGrows(first, s, a);
    assert Keeps(s.jobs[j], Step(s, a).jobs[j]);
    assert DisownedAt(Step(s, a), k, j, i);
  }

  lemma {:induction false} RunDisowns(first: map<nat, Segment>, s: State, actions: seq<Action>)
    requires StateOk(first, s, false) && (Disowned(s) || EverSplits(s, actions))
    ensures Disowned(Run(s, actions))
    decreases |actions|
  {
    if actions != [] {
      StepOk(first, s, actions[0], false);
      if Disowned(s) { StaysDisowned(first, s, actions[0]); }
      else if SplitStep(s, actions[0]) { SplitDisowns(first, s, actions[0]); }
      RunDisowns(first, Step(s, actions[0]), actions[1..]);
    }
  }

  // ---- what holds of every interleaving

  /** The values of a segment form a chain: each write starts from the value the one before it left, the
      first from the initial one, and the last leaves the stored one. Each write by a job goes from the
      original that the job recorded to a result for the item, which then is completed with that result or, if a
      save of the same call failed, failed. */
  lemma WritesFormChains(subtasks: nat, first: map<nat, Segment>, actions: seq<Action>, id: nat)
    requires HomesOk(first, subtasks) && id in Run(State(subtasks, first, [], []), actions).segments
    ensures id in first
    ensures var s := Run(State(subtasks, first, [], []), actions);
            && Chained(s.history, id, first[id].dst, s.segments[id].dst)
            && forall k :: 0 <= k < |s.history| ==> Authored(s.history[k], s.jobs, false)
  {
    RunOk(first, State(subtasks, first, [], []), actions, false);
  }

  /** Every write is owned up to - its item is completed with the very result written - exactly if no save fails
      after another one of the same call has succeeded. */
  lemma WritesOwnedUp(subtasks: nat, first: map<nat, Segment>, actions: seq<Action>)
    requires HomesOk(first, subtasks)
    ensures var s, t := State(subtasks, first, [], []), Run(State(subtasks, first, [], []), actions);
            AllAuthored(t.history, t.jobs, true) <==> !EverSplits(s, actions)
  {
    var s := State(subtasks, first, [], []);
    if EverSplits(s, actions) {
      RunDisowns(first, s, actions);
      var t := Run(s, actions);
      var k: nat, j: nat, i: nat :| DisownedAt(t, k, j, i);
      assert !Authored(t.history[k], t.jobs, true);
    } else {
      RunOk(first, s, actions, true);
    }
  }

  /** What one region that writes does to one of its items. It completes exactly if the segment still has the
      recorded source and translation, the result is new and approved, and no save fails. The result is stored
      exactly in these cases and, if one does fail, in those where the segment's subtask came before it. */
  lemma CompletesIffUnchanged(first: map<nat, Segment>, s: State, a: Action, k: nat)
    requires StateOk(first, s, false) && a.Apply? && a.j < |s.jobs| && Ready(s.jobs[a.j], a.results)
    requires k < |s.jobs[a.j].items| && s.jobs[a.j].outcomes[k].Open? && s.jobs[a.j].items[k].id in s.segments
    ensures var item, t := s.jobs[a.j].items[k], Step(s, a);
            var job := JudgeAll(s.segments, s.jobs[a.j], a.results, a.approved);
            var breaks := Breaks(s.segments, job, NewlyDone(s.jobs[a.j], job), a.failing);
            var result, current := a.results[item.id], s.segments[item.id];
            var good := current.source == item.source && current.dst == item.original && result != item.original
                        && item.id in a.approved;
            && a.j < |t.jobs| && Shaped(t.jobs[a.j]) && k < |t.jobs[a.j].outcomes| && item.id in t.segments
            && (t.jobs[a.j].outcomes[k] == Done(result) <==> good && !breaks)
            && t.segments[item.id] == if good && (breaks ==> current.home < a.failing.value) then current.(dst := result) else current
  {
    var job := JudgeAll(s.segments, s.jobs[a.j], a.results, a.approved);
    var flags, l, id := NewlyDone(s.jobs[a.j], job), Ledger(s.segments, s.history), job.items[k].id;
    var n := SavedCount(s.segments, job, flags, a.failing, s.subtasks);
    if flags[k] && s.segments[id].home < n {
      SaveItem(l, a.j, job, flags, 0, n, k);
    } else {
      SaveOthers(l, a.j, job, flags, 0, n, id);
    }
  }

  /** A job on two segments of two subtasks, with the second save failing: the first segment has the new
      translation although both items count as failed. */
  lemma SplitExample()
    ensures var first := map[0 := Segment("a", "x", 0), 1 := Segment("b", "y", 1)];
            var job := Job([Item(0, "x", "a"), Item(1, "y", "b")], AllOpen(2), false);
            var s := State(2, first, [job], []);
            var t := Step(s, Apply(0, map[0 := "p", 1 := "q"], {0, 1}, Some(1)));
            && StateOk(first, s, true)
            && t.jobs[0].outcomes == [Failed, Failed] && 0 in t.segments && 1 in t.segments
            && t.segments[0].dst == "p" && t.segments[1].dst == "y"
  {
    var first := map[0 := Segment("a", "x", 0), 1 := Segment("b", "y", 1)];
    var before := Job([Item(0, "x", "a"), Item(1, "y", "b")], AllOpen(2), false);
    var results := map[0 := "p", 1 := "q"];
    var job := JudgeAll(first, before, results, {0, 1});
    var flags := NewlyDone(before, job);
    assert job.outcomes == [Done("p"), Done("q")] && flags == [true, true];
    assert InSubtask(first, job.items[1], 1);
    SaveItem(Ledger(first, []), 0, job, flags, 0, 1, 0);
    SaveOthers(Ledger(first, []), 0, job, flags, 0, 1, 1);
    assert FailAll(job, flags).outcomes == [Failed, Failed];
  }

  // ---- the store of one task

  class SegmentStore {
    const subtasks: nat
    var segments: map<nat, Segment>
    ghost var history: seq<Write>

    constructor (subtasks: nat, segments: map<nat, Segment>)
      ensures View() == Ledger(segments, []) && this.subtasks == subtasks
    {
      this.subtasks, this.segments, history := subtasks, segments, [];
    }

    ghost function View(): Ledger
      reads this
    {
      Ledger(segments, history)
    }

    /** Whether some flagged item is in subtask `h`. */
    method AnyIn(job: Job, flags: seq<bool>, h: nat) returns (any: bool)
      requires |flags| == |job.items|
      ensures any <==> exists i | 0 <= i < |flags| :: flags[i] && InSubtask(segments, job.items[i], h)
    {
      any := false;
      for i := 0 to |flags|
        invariant any <==> exists k | 0 <= k < i :: flags[k] && InSubtask(segments, job.items[k], h)
      {
        if flags[i] && InSubtask(segments, job.items[i], h) { any := true; }
      }
    }

    /** One subtask is saved with all its flagged results. */
    method SaveSubtask(ghost j: nat, job: Job, flags: seq<bool>, h: nat)
      requires Shaped(job) && |flags| == |job.items|
      modifies this
      ensures View() == WriteAll(old(View()), j, job, FlagsIn(old(segments), job, flags, h))
    {
      ghost var some := FlagsIn(segments, job, flags, h);
      var i := 0;
      while i < |flags|
        invariant 0 <= i <= |flags| && SameButDst(old(segments), segments)
        invariant WriteAll(View(), j, job, some, i) == WriteAll(old(View()), j, job, some)
      {
        var id := job.items[i].id;
        if flags[i] && InSubtask(segments, job.items[i], h) && job.outcomes[i].Done? {
          history := history + [Write(id, segments[id].dst, job.outcomes[i].result, Some((j, i)))];
          segments := segments[id := segments[id].(dst := job.outcomes[i].result)];
        }
        i := i + 1;
      }
    }

    /** `_patch_segment_dsts`: subtask after subtask, until saving one of them raises. */
    method Patch(ghost j: nat, job: Job, flags: seq<bool>, failing: Option<nat>) returns (saved: bool)
      requires Shaped(job) && |flags| == |job.items| && HomesOk(segments, subtasks)
      modifies this
      ensures saved <==> !Breaks(old(segments), job, flags, failing)
      ensures View() == SaveFrom(old(View()), j, job, flags, 0, SavedCount(old(segments), job, flags, failing, subtasks))
    {
      ghost var n := SavedCount(segments, job, flags, failing, subtasks);
      var h := 0;
      while h < subtasks
        invariant 0 <= h <= n <= subtasks && SameButDst(old(segments), segments)
        invariant SaveFrom(View(), j, job, flags, h, n) == SaveFrom(old(View()), j, job, flags, 0, n)
      {
        if failing == Some(h) {
          var any := AnyIn(job, flags, h);
          if any {
            assert n == h;
            return false;
          }
        }
        assert h < n;
        WriteAllSame(View(), j, job, FlagsIn(segments, job, flags, h), 0);
        SaveSubtask(j, job, flags, h);
        h := h + 1;
      }
      return true;
    }

    /** `_apply_retranslate_batch_candidates`, and the last region of `_execute_retranslate` for one item: judge
        every open item against the store as loaded, then save the successes; a failed save fails them all. */
    method ApplyCandidates(ghost j: nat, job: Job, results: map<nat, string>, approved: set<nat>, failing: Option<nat>)
      returns (after: Job)
      requires Ready(job, results) && HomesOk(segments, subtasks)
      modifies this
      ensures var judged := JudgeAll(old(segments), job, results, approved);
              var flags := NewlyDone(job, judged);
              && after == (if Breaks(old(segments), judged, flags, failing) then FailAll(judged, flags) else judged)
              && View() == SaveFrom(old(View()), j, judged, flags, 0, SavedCount(old(segments), judged, flags, failing, subtasks))
    {
      var flags;
      after, flags := JudgeEach(job, results, approved);
      var saved := Patch(j, after, flags, failing);
      if !saved { after := MarkFailed(after, flags); }
    }

    method JudgeEach(job: Job, results: map<nat, string>, approved: set<nat>) returns (judged: Job, flags: seq<bool>)
      requires Ready(job, results)
      ensures judged == JudgeAll(segments, job, results, approved) && flags == NewlyDone(job, judged)
    {
      var outcomes;
      outcomes, flags := [], [];
      for i := 0 to |job.items|
        invariant |outcomes| == i == |flags|
        invariant forall k :: 0 <= k < i ==>
                    && outcomes[k] == JudgeAll(segments, job, results, approved).outcomes[k]
                    && flags[k] == (job.outcomes[k].Open? && outcomes[k].Done?)
      {
        var item, outcome := job.items[i], job.outcomes[i];
        if outcome.Open? {
          var result := results[item.id];
          if item.id !in segments || segments[item.id].source != item.source { outcome := Skipped; }
          else if segments[item.id].dst != item.original { outcome := Stale; }
          else if result == item.original || item.id !in approved { outcome := Unresolved; }
          else { outcome := Done(result); }
        }
        outcomes, flags := outcomes + [outcome], flags + [job.outcomes[i].Open? && outcome.Done?];
      }
      judged := Job(job.items, outcomes, true);
      assert judged == JudgeAll(segments, job, results, approved);
      assert flags == NewlyDone(job, judged);
    }

    method MarkFailed(job: Job, flags: seq<bool>) returns (failed: Job)
      requires Shaped(job) && |flags| == |job.items|
      ensures failed == FailAll(job, flags)
    {
      var outcomes := job.outcomes;
      for i := 0 to |flags|
        invariant |outcomes| == |flags|
        invariant forall k :: 0 <= k < |flags| ==>
                    outcomes[k] == if flags[k] && k < i then Failed else job.outcomes[k]
      {
        if flags[i] { outcomes := outcomes[i := Failed]; }
      }
      failed := job.(outcomes := outcomes);
      assert failed.outcomes == FailAll(job, flags).outcomes;
    }

    /** `_sync_completed_retranslate_result`; `loaded` tells whether the task could be loaded. After a failed load
        or save it will be tried again. */
    method SyncCompleted(ghost j: nat, job: Job, loaded: bool, failing: Option<nat>) returns (after: Job)
      requires Shaped(job) && HomesOk(segments, subtasks)
      modifies this
      ensures job.applied || !loaded ==> after == job && View() == old(View())
      ensures !job.applied && loaded ==>
                var flags := PendingFlags(old(segments), job);
                && after == (if Breaks(old(segments), job, flags, failing) then job else job.(applied := true))
                && View() == SaveFrom(old(View()), j, job, flags, 0, SavedCount(old(segments), job, flags, failing, subtasks))
    {
      if job.applied || !loaded { return job; }
      var flags := [];
      for i := 0 to |job.items|
        invariant |flags| == i && View() == old(View())
        invariant forall k :: 0 <= k < i ==> flags[k] == Pending(segments, job, k)
      {
        flags := flags + [Pending(segments, job, i)];
      }
      assert flags == PendingFlags(segments, job);
      var saved := Patch(j, job, flags, failing);
      after := if saved then job.(applied := true) else job;
    }
  }
}
