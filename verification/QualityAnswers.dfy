/** What callers of the batched quality review get: the outcome of the very review their item was part of, in a batch
    formed under the token limit of the caller who leads. */
module QualityAnswers {
  import opened Lists
  import opened QualityReview

  // ---- errors and cancellations

  ghost predicate AllGiven(items: seq<Item>, ids: seq<nat>, answer: Answer) {
    forall k :: 0 <= k < |ids| ==> ids[k] < |items| && items[ids[k]].answers == [answer] && items[ids[k]].done
  }

  ghost predicate OthersKept(before: seq<Item>, items: seq<Item>, ids: seq<nat>) {
    |items| == |before| && forall x :: 0 <= x < |before| && x !in ids ==> items[x] == before[x]
  }

  lemma OpenUnanswered(items: seq<Item>, ids: seq<nat>, rest: seq<nat>)
    requires ItemsOk(items, ids + rest)
    ensures forall k :: 0 <= k < |ids| ==> ids[k] < |items| && items[ids[k]].answers == []
  {
    forall k | 0 <= k < |ids| ensures ids[k] < |items| && items[ids[k]].answers == [] { assert (ids + rest)[k] in ids + rest; }
  }

  lemma GivenSame(items: seq<Item>, ids: seq<nat>, answer: Answer)
    requires NoDup(ids) && forall k :: 0 <= k < |ids| ==> ids[k] < |items| && items[ids[k]].answers == []
    ensures var r := AnswerAll(items, ids, Same(|ids|, answer)); AllGiven(r, ids, answer) && OthersKept(items, r, ids)
  {
    var answers := Same(|ids|, answer);
    EachAnswered(items, ids, answers, 0);
    assert ids[0..] == ids;
    EachGiven(items, ids, AnswerAll(items, ids, answers), answer);
  }

  lemma EachGiven(items: seq<Item>, ids: seq<nat>, r: seq<Item>, answer: Answer)
    requires forall k :: 0 <= k < |ids| ==> ids[k] < |items| == |r| && items[ids[k]].answers == []
    requires forall k :: 0 <= k < |ids| ==> r[ids[k]] == Give(items[ids[k]], answer)
    ensures AllGiven(r, ids, answer)
  {
  }

  lemma SameGiven(items: seq<Item>, ids: seq<nat>, rest: seq<nat>, answer: Answer)
    requires ItemsOk(items, ids + rest)
    ensures IdsOk(ids, |items|)
    ensures var r := AnswerAll(items, ids, Same(|ids|, answer));
            AllGiven(r, ids, answer) && OthersKept(items, r, ids) && ItemsOk(r, rest)
  {
    AnsweredOk(items, ids, rest, Same(|ids|, answer));
    OpenUnanswered(items, ids, rest);
    GivenSame(items, ids, answer);
  }

  /** An error reaches exactly the items of the batch under review. */
  lemma ErrorReachesBatch(r: Review, error: string)
    requires ReviewOk(r) && r.leader.Reviewing?
    ensures var s := Step(r, Hear(Raised(error)));
            && AllGiven(s.items, r.leader.batch, Failure(error)) && OthersKept(r.items, s.items, r.leader.batch)
            && s.queue == r.queue && s.registered && s.leader.Checking?
  {
    HearOk(r, Raised(error));
    SameGiven(r.items, r.leader.batch, r.queue, Failure(error));
  }

  lemma GivenTwice(a: seq<Item>, b: seq<Item>, c: seq<Item>, p: seq<nat>, q: seq<nat>, answer: Answer)
    requires NoDup(p + q) && AllGiven(b, q, answer) && OthersKept(a, b, q) && AllGiven(c, p, answer) && OthersKept(b, c, p)
    ensures AllGiven(c, p + q, answer) && OthersKept(a, c, p + q)
  {
    NoDupSplit(p, q);
    forall k | 0 <= k < |p + q| ensures (p + q)[k] < |c| && c[(p + q)[k]].answers == [answer] && c[(p + q)[k]].done {
      if k >= |p| { assert q[k - |p|] in q && (p + q)[k] == q[k - |p|] && q[k - |p|] !in p; }
    }
    assert forall x :: x in p || x in q ==> x in p + q;
  }

  lemma BothGiven(items: seq<Item>, batch: seq<nat>, queue: seq<nat>, answer: Answer)
    requires ItemsOk(items, batch + queue)
    ensures IdsOk(batch, |items|) && IdsOk(queue, |items|)
    ensures var r := AnswerAll(AnswerAll(items, queue, Same(|queue|, answer)), batch, Same(|batch|, answer));
            AllGiven(r, batch + queue, answer) && OthersKept(items, r, batch + queue)
  {
    IdsSplit(batch, queue, |items|);
    SwapOpen(items, batch, queue);
    SameGiven(items, queue, batch, answer);
    var rest := AnswerAll(items, queue, Same(|queue|, answer));
    EmptyConcat(batch);
    SameGiven(rest, batch, [], answer);
    GivenTwice(items, rest, AnswerAll(rest, batch, Same(|batch|, answer)), batch, queue, answer);
  }

  /** A cancelled leader's error reaches exactly the items under review and those in the queue, and the group is
      gone. */
  lemma CancelReachesAll(r: Review, error: string)
    requires ReviewOk(r) && r.leader.Reviewing?
    ensures var s := Step(r, Hear(Cancelled(error)));
            && AllGiven(s.items, r.leader.batch + r.queue, Failure(error))
            && OthersKept(r.items, s.items, r.leader.batch + r.queue)
            && s.queue == [] && !s.registered && s.leader.Gone?
  {
    BothGiven(r.items, r.leader.batch, r.queue, Failure(error));
  }

  // ---- tokens and limits come from the callers

  /** What a caller brings: the tokens of its item and the limit of its model. */
  datatype Caller = Caller(tokens: nat, limit: nat)

  function Callers(actions: seq<Action>): seq<Caller> {
    if actions == [] then []
    else (if actions[0].Join? then [Caller(actions[0].tokens, actions[0].limit)] else []) + Callers(actions[1..])
  }

  /** The caller that leads: the last one to arrive when there was no group. */
  function Lead(r: Review, actions: seq<Action>, lead: nat): nat
    decreases |actions|
  {
    if actions == [] then lead
    else Lead(Step(r, actions[0]), actions[1..], if actions[0].Join? && !r.registered then |r.items| else lead)
  }

  ghost predicate BroughtBy(r: Review, callers: seq<Caller>, lead: nat) {
    && |r.items| == |callers| && (forall i :: 0 <= i < |callers| ==> r.items[i].tokens == callers[i].tokens)
    && (r.registered ==> lead < |callers| && r.limit == callers[lead].limit)
  }

  ghost predicate SameTokensAs(items: seq<Item>, more: seq<Item>) {
    |more| == |items| && forall x :: 0 <= x < |items| ==> more[x].tokens == items[x].tokens
  }

  lemma HeardTokens(r: Review, reply: Reply)
    requires ReviewOk(r) && r.leader.Reviewing?
    ensures SameTokensAs(r.items, Step(r, Hear(reply)).items)
  {
    var batch := r.leader.batch;
    HearOk(r, reply);
    NoDupSplit(batch, r.queue);
    match reply {
      case Decided(decisions) => if |decisions| == |batch| { AnswersKeepTokens(r.items, batch, Decisions(decisions)); }
      case Raised(error) => AnswersKeepTokens(r.items, batch, Same(|batch|, Failure(error)));
      case Cancelled(error) =>
        AnswersKeepTokens(r.items, r.queue, Same(|r.queue|, Failure(error)));
        AnswersKeepTokens(AnswerAll(r.items, r.queue, Same(|r.queue|, Failure(error))), batch, Same(|batch|, Failure(error)));
    }
  }

  lemma JoinBrought(r: Review, tokens: nat, limit: nat, callers: seq<Caller>, lead: nat)
    requires BroughtBy(r, callers, lead)
    ensures BroughtBy(Joined(r, tokens, limit), callers + [Caller(tokens, limit)], if r.registered then lead else |r.items|)
  {
    var more := callers + [Caller(tokens, limit)];
    forall i | 0 <= i < |more| ensures Joined(r, tokens, limit).items[i].tokens == more[i].tokens {
      if i < |callers| { assert r.items[i].tokens == callers[i].tokens; }
    }
  }

  lemma KeptBrought(r: Review, s: Review, callers: seq<Caller>, lead: nat)
    requires BroughtBy(r, callers, lead) && SameTokensAs(r.items, s.items)
    requires s.registered ==> r.registered && s.limit == r.limit
    ensures BroughtBy(s, callers, lead)
  {
  }

  lemma StepKeepsTokens(r: Review, a: Action)
    requires ReviewOk(r) && !a.Join?
    ensures var s := Step(r, a); SameTokensAs(r.items, s.items) && (s.registered ==> r.registered && s.limit == r.limit)
  {
    if a.Hear? && r.leader.Reviewing? { HeardTokens(r, a.reply); }
  }

  lemma StepBrought(r: Review, a: Action, callers: seq<Caller>, lead: nat)
    requires ReviewOk(r) && BroughtBy(r, callers, lead)
    ensures BroughtBy(Step(r, a), callers + (if a.Join? then [Caller(a.tokens, a.limit)] else []),
                      if a.Join? && !r.registered then |r.items| else lead)
  {
    if a.Join? {
      JoinBrought(r, a.tokens, a.limit, callers, lead);
    } else {
      EmptyConcat(callers);
      StepKeepsTokens(r, a);
      KeptBrought(r, Step(r, a), callers, lead);
    }
  }

  lemma {:induction false} RunBrought(r: Review, actions: seq<Action>, callers: seq<Caller>, lead: nat)
    requires ReviewOk(r) && BroughtBy(r, callers, lead)
    ensures BroughtBy(Run(r, actions), callers + Callers(actions), Lead(r, actions, lead))
    decreases |actions|
  {
    if actions == [] {
      EmptyConcat(callers);
    } else {
      var a := actions[0];
      var more := if a.Join? then [Caller(a.tokens, a.limit)] else [];
      StepOk(r, a);
      StepBrought(r, a, callers, lead);
      RunBrought(Step(r, a), actions[1..], callers + more, if a.Join? && !r.registered then |r.items| else lead);
      Assoc(callers, more, Callers(actions[1..]));
    }
  }

  /** The sum of what the callers of these items estimated. */
  function CallersTokens(callers: seq<Caller>, ids: seq<nat>): nat
    requires IdsOk(ids, |callers|)
  {
    if ids == [] then 0 else callers[ids[0]].tokens + CallersTokens(callers, ids[1..])
  }

  lemma {:induction false} LastCaller(callers: seq<Caller>, ids: seq<nat>, id: nat)
    requires IdsOk(ids + [id], |callers|) && IdsOk(ids, |callers|) && id < |callers|
    ensures CallersTokens(callers, ids + [id]) == CallersTokens(callers, ids) + callers[id].tokens
  {
    if ids == [] {
      assert [] + [id] == [id] && [id][1..] == [];
    } else {
      TailOfConcat(ids, [id]);
      LastCaller(callers, ids[1..], id);
    }
  }

  lemma {:induction false} TokensBrought(items: seq<Item>, callers: seq<Caller>, ids: seq<nat>)
    requires |items| == |callers| && IdsOk(ids, |items|)
    requires forall i :: 0 <= i < |callers| ==> items[i].tokens == callers[i].tokens
    ensures TokensOf(items, ids) == CallersTokens(callers, ids)
    decreases |ids|
  {
    if ids != [] {
      var front, last := ids[..|ids| - 1], ids[|ids| - 1];
      assert ids == front + [last];
      TokensBrought(items, callers, front);
      LastCaller(callers, front, last);
    }
  }

  /** A batch has as many items as it can: five, or all there are, or as many as fit within the limit, at least one. */
  ghost predicate WellFilled(callers: seq<Caller>, limit: nat, batch: seq<nat>, rest: seq<nat>) {
    && IdsOk(batch, |callers|) && IdsOk(rest, |callers|) && 0 < |batch| <= 5
    && (|batch| == 1 || limit == 0 || CallersTokens(callers, batch) <= limit)
    && (rest == [] || |batch| == 5 || (limit > 0 && CallersTokens(callers, batch) + callers[rest[0]].tokens > limit))
  }

  lemma FrontFilled(items: seq<Item>, callers: seq<Caller>, queue: seq<nat>, limit: nat)
    requires queue != [] && IdsOk(queue, |items|) && |items| == |callers|
    requires forall i :: 0 <= i < |callers| ==> items[i].tokens == callers[i].tokens
    ensures var size := BatchSize(items, queue, limit); WellFilled(callers, limit, queue[..size], queue[size..])
  {
    var size := BatchSize(items, queue, limit);
    FirstBatchOk(items, queue, limit);
    BatchSizeIsMaximal(items, queue, limit, 0);
    TokensBrought(items, callers, queue[..size]);
  }

  lemma Brought(actions: seq<Action>)
    ensures ReviewOk(Run(EMPTY, actions)) && BroughtBy(Run(EMPTY, actions), Callers(actions), Lead(EMPTY, actions, 0))
  {
    assert ItemsOk(EMPTY.items, Open(EMPTY));
    RunOk(EMPTY, actions);
    RunBrought(EMPTY, actions, [], 0);
    EmptyConcat(Callers(actions));
  }

  /** After any history the leader's next batch is taken off the front of the queue, filled as well as it can be within
      the limit of the caller who leads, by the tokens that the items' own callers estimated. */
  lemma NextBatch(actions: seq<Action>)
    requires Run(EMPTY, actions).leader.Gathering?
    ensures var r, callers, lead := Run(EMPTY, actions), Callers(actions), Lead(EMPTY, actions, 0);
            var s := Step(r, Take);
            && lead < |callers| && s.leader.Reviewing? && s.leader.batch + s.queue == r.queue
            && WellFilled(callers, callers[lead].limit, s.leader.batch, s.queue)
  {
    Brought(actions);
    BatchTaken(Run(EMPTY, actions), Callers(actions), Lead(EMPTY, actions, 0));
  }

  lemma BatchTaken(r: Review, callers: seq<Caller>, lead: nat)
    requires ReviewOk(r) && r.leader.Gathering? && BroughtBy(r, callers, lead)
    ensures var s := Step(r, Take);
            && lead < |callers| && s.leader.Reviewing? && s.leader.batch + s.queue == r.queue
            && WellFilled(callers, callers[lead].limit, s.leader.batch, s.queue)
  {
    TakeOk(r);
    TakeDrop(r.queue, BatchSize(r.items, r.queue, r.limit));
    FrontFilled(r.items, callers, r.queue, r.limit);
  }
}
