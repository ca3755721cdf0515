/** Batched quality reviews of retranslations (transoria/bridge/task_service.py). The first caller to arrive
    for a group key leads: it takes batches off the queue, has them reviewed and hands out the answers, until
    the queue is empty. Later callers queue an item and wait. Each step is one region under the gate, or one
    that only the leader can touch. */
module QualityReview {
  import opened Lists

  const MAX_ITEMS := 5

  datatype Answer = Decision(text: string) | Failure(error: string)

  /** `answers` lists what was stored for the item, in turn; `done` is its event. */
  datatype Item = Item(tokens: nat, answers: seq<Answer>, done: bool)

  datatype Leader = Gone | Gathering | Reviewing(batch: seq<nat>) | Checking

  /** The reviews of one group key. Items are numbered as they arrive. `taken` lists the batches so far with
      the token limit each was formed under; `cancelled` tells whether a leader has been cancelled. */
  datatype Review = Review(items: seq<Item>, queue: seq<nat>, registered: bool, leader: Leader, limit: nat,
                           taken: seq<Batch>, cancelled: bool)

  datatype Batch = Batch(ids: seq<nat>, limit: nat)

  const EMPTY := Review([], [], false, Gone, 0, [], false)

  datatype Reply = Decided(decisions: seq<string>) | Raised(error: string) | Cancelled(error: string)

  datatype Action = Join(tokens: nat, limit: nat) | Take | Hear(reply: Reply) | Check

  // ---- one batch

  function TokensOf(items: seq<Item>, ids: seq<nat>): nat
    requires forall k :: 0 <= k < |ids| ==> ids[k] < |items|
  {
    if ids == [] then 0 else TokensOf(items, ids[..|ids| - 1]) + items[ids[|ids| - 1]].tokens
  }

  /** Another item goes into the batch. */
  predicate Fits(items: seq<Item>, queue: seq<nat>, n: nat, limit: nat)
    requires n < |queue| && forall k :: 0 <= k < |queue| ==> queue[k] < |items|
  {
    n < MAX_ITEMS && (n == 0 || limit == 0 || TokensOf(items, queue[..n]) + items[queue[n]].tokens <= limit)
  }

  /** How many items from the front of the queue make up a batch of which `n` are already in. */
  function BatchSize(items: seq<Item>, queue: seq<nat>, limit: nat, n: nat := 0): (size: nat)
    requires n <= |queue| && forall k :: 0 <= k < |queue| ==> queue[k] < |items|
    ensures n <= size <= |queue|
    decreases |queue| - n
  {
    if n < |queue| && Fits(items, queue, n, limit) then BatchSize(items, queue, limit, n + 1) else n
  }

  /** Non-empty, at most five, and within a positive limit unless there is but one item. */
  ghost predicate BatchOk(items: seq<Item>, b: Batch) {
    && 0 < |b.ids| <= 5
    && (forall k :: 0 <= k < |b.ids| ==> b.ids[k] < |items|)
    && (b.limit > 0 && |b.ids| > 1 ==> TokensOf(items, b.ids) <= b.limit)
  }

  /** The batch is as long as it may be. */
  lemma {:induction false} BatchSizeIsMaximal(items: seq<Item>, queue: seq<nat>, limit: nat, n: nat)
    requires n <= |queue| && n <= MAX_ITEMS && forall k :: 0 <= k < |queue| ==> queue[k] < |items|
    requires n <= 1 || limit == 0 || TokensOf(items, queue[..n]) <= limit
    ensures var size := BatchSize(items, queue, limit, n);
            && size <= 5
            && (size <= 1 || limit == 0 || TokensOf(items, queue[..size]) <= limit)
            && (size == |queue| || size == 5
                || (size > 0 && limit > 0 && TokensOf(items, queue[..size]) + items[queue[size]].tokens > limit))
    decreases |queue| - n
  {
    if n < |queue| && Fits(items, queue, n, limit) {
      assert queue[..n + 1][..n] == queue[..n];
      BatchSizeIsMaximal(items, queue, limit, n + 1);
    }
  }

  // ---- handing out the answers

  function Give(item: Item, answer: Answer): Item {
    item.(answers := item.answers + [answer], done := true)
  }

  function AnswerAll(items: seq<Item>, ids: seq<nat>, answers: seq<Answer>, i: nat := 0): (r: seq<Item>)
    requires |answers| == |ids| && i <= |ids| && forall k :: 0 <= k < |ids| ==> ids[k] < |items|
    ensures |r| == |items|
    decreases |ids| - i
  {
    if i == |ids| then items else AnswerAll(items[ids[i] := Give(items[ids[i]], answers[i])], ids, answers, i + 1)
  }

  lemma {:induction false} EachAnswered(items: seq<Item>, ids: seq<nat>, answers: seq<Answer>, i: nat)
    requires |answers| == |ids| && i <= |ids| && NoDup(ids) && forall k :: 0 <= k < |ids| ==> ids[k] < |items|
    ensures var r := AnswerAll(items, ids, answers, i);
            && (forall k :: i <= k < |ids| ==> r[ids[k]] == Give(items[ids[k]], answers[k]))
            && (forall x :: 0 <= x < |items| && x !in ids[i..] ==> r[x] == items[x])
    decreases |ids| - i
  {
    if i < |ids| {
      EachAnswered(items[ids[i] := Give(items[ids[i]], answers[i])], ids, answers, i + 1);
      assert ids[i..] == [ids[i]] + ids[i + 1..];
      assert forall k :: i < k < |ids| ==> ids[k] == ids[i + 1..][k - i - 1];
      assert ids[i] !in ids[i + 1..];
    }
  }

  function Same(n: nat, answer: Answer): seq<Answer> {
    seq(n, _ => answer)
  }

  function Decisions(texts: seq<string>): seq<Answer> {
    seq(|texts|, i requires 0 <= i < |texts| => Decision(texts[i]))
  }

  // ---- steps

  predicate IdsOk(ids: seq<nat>, n: nat) {
    forall k :: 0 <= k < |ids| ==> ids[k] < n
  }

  function Joined(r: Review, tokens: nat, limit: nat): Review {
    var id, items := |r.items|, r.items + [Item(tokens, [], false)];
    if r.registered then r.(items := items, queue := r.queue + [id])
    else r.(items := items, queue := [id], registered := true, leader := Gathering, limit := limit)
  }

  function Taken(r: Review): Review
    requires IdsOk(r.queue, |r.items|)
  {
    var size := BatchSize(r.items, r.queue, r.limit);
    r.(queue := r.queue[size..], leader := Reviewing(r.queue[..size]), taken := r.taken + [Batch(r.queue[..size], r.limit)])
  }

  function Heard(r: Review, batch: seq<nat>, reply: Reply): Review
    requires IdsOk(batch, |r.items|) && IdsOk(r.queue, |r.items|)
  {
    match reply
    case Decided(decisions) =>
      if |decisions| != |batch| then r
      else r.(items := AnswerAll(r.items, batch, Decisions(decisions)), leader := Checking)
    case Raised(error) =>
      r.(items := AnswerAll(r.items, batch, Same(|batch|, Failure(error))), leader := Checking)
    case Cancelled(error) =>
      var rest := AnswerAll(r.items, r.queue, Same(|r.queue|, Failure(error)));
      r.(items := AnswerAll(rest, batch, Same(|batch|, Failure(error))), queue := [], registered := false,
         leader := Gone, cancelled := true)
  }

  function Step(r: Review, a: Action): Review {
    match a
    case Join(tokens, limit) => Joined(r, tokens, limit)
    case Take => if r.leader.Gathering? && IdsOk(r.queue, |r.items|) then Taken(r) else r
    case Hear(reply) =>
      if r.leader.Reviewing? && IdsOk(r.leader.batch, |r.items|) && IdsOk(r.queue, |r.items|)
      then Heard(r, r.leader.batch, reply) else r
    case Check =>
      if !r.leader.Checking? then r
      else if r.queue == [] then r.(registered := false, leader := Gone)
      else r.(leader := Gathering)
  }

  function Run(r: Review, actions: seq<Action>): Review
    decreases |actions|
  {
    if actions == [] then r else Run(Step(r, actions[0]), actions[1..])
  }

  // ---- the invariant

  /** The items that still wait for an answer. */
  function Open(r: Review): seq<nat> {
    (if r.leader.Reviewing? then r.leader.batch else []) + r.queue
  }

  /** A waiting item has no answer and is not done; any other has exactly one and is. */
  ghost predicate ItemsOk(items: seq<Item>, open: seq<nat>) {
    && NoDup(open) && IdsOk(open, |items|)
    && forall x :: 0 <= x < |items| ==>
         if x in open then items[x].answers == [] && !items[x].done else |items[x].answers| == 1 && items[x].done
  }

  ghost predicate LeaderOk(r: Review) {
    && (r.registered <==> !r.leader.Gone?)
    && (r.leader.Gone? ==> r.queue == [])
    && (r.leader.Gathering? ==> r.queue != [])
  }

  function AllTaken(taken: seq<Batch>): seq<nat> {
    if taken == [] then [] else AllTaken(taken[..|taken| - 1]) + taken[|taken| - 1].ids
  }

  function Arrivals(n: nat): seq<nat> {
    seq(n, i => i)
  }

  ghost predicate BatchesOk(r: Review) {
    && (forall k :: 0 <= k < |r.taken| ==> BatchOk(r.items, r.taken[k]))
    && (!r.cancelled ==> AllTaken(r.taken) + r.queue == Arrivals(|r.items|))
  }

  ghost predicate ReviewOk(r: Review) {
    ItemsOk(r.items, Open(r)) && LeaderOk(r) && BatchesOk(r)
  }

  /** Batches do not change when items are added or answered. */
  lemma {:induction false} SameTokens(items: seq<Item>, more: seq<Item>, ids: seq<nat>)
    requires |items| <= |more| && IdsOk(ids, |items|)
    requires forall x :: 0 <= x < |items| ==> more[x].tokens == items[x].tokens
    ensures TokensOf(more, ids) == TokensOf(items, ids)
  {
    if ids != [] { SameTokens(items, more, ids[..|ids| - 1]); }
  }

  lemma BatchesStay(items: seq<Item>, more: seq<Item>, taken: seq<Batch>)
    requires forall k :: 0 <= k < |taken| ==> BatchOk(items, taken[k])
    requires |items| <= |more| && forall x :: 0 <= x < |items| ==> more[x].tokens == items[x].tokens
    ensures forall k :: 0 <= k < |taken| ==> BatchOk(more, taken[k])
  {
    forall k | 0 <= k < |taken| ensures BatchOk(more, taken[k]) {
      assert BatchOk(items, taken[k]);
      SameTokens(items, more, taken[k].ids);
    }
  }

  lemma AnswersKeepTokens(items: seq<Item>, ids: seq<nat>, answers: seq<Answer>)
    requires |answers| == |ids| && NoDup(ids) && IdsOk(ids, |items|)
    ensures forall x :: 0 <= x < |items| ==> AnswerAll(items, ids, answers)[x].tokens == items[x].tokens
  {
    EachAnswered(items, ids, answers, 0);
    forall x | 0 <= x < |items| ensures AnswerAll(items, ids, answers)[x].tokens == items[x].tokens {
      if x in ids {
        var k :| 0 <= k < |ids| && ids[k] == x;
      }
    }
  }

  lemma NewItemOk(items: seq<Item>, open: seq<nat>, tokens: nat)
    requires ItemsOk(items, open)
    ensures ItemsOk(items + [Item(tokens, [], false)], open + [|items|])
  {
    var more, all := items + [Item(tokens, [], false)], open + [|items|];
    assert |items| !in open;
    NoDupConcat(open, [|items|]);
    forall x | 0 <= x < |more|
      ensures if x in all then more[x].answers == [] && !more[x].done else |more[x].answers| == 1 && more[x].done
    {
      assert x in all <==> x in open || x == |items|;
      if x < |items| { assert more[x] == items[x]; }
    }
  }

  lemma NewItemBatches(r: Review, tokens: nat, queue: seq<nat>)
    requires BatchesOk(r) && queue == r.queue + [|r.items|]
    ensures BatchesOk(r.(items := r.items + [Item(tokens, [], false)], queue := queue))
  {
    BatchesStay(r.items, r.items + [Item(tokens, [], false)], r.taken);
    Assoc(AllTaken(r.taken), r.queue, [|r.items|]);
    assert Arrivals(|r.items| + 1) == Arrivals(|r.items|) + [|r.items|];
  }

  lemma JoinOk(r: Review, tokens: nat, limit: nat)
    requires ReviewOk(r)
    ensures ReviewOk(Joined(r, tokens, limit))
  {
    var id, batch := |r.items|, if r.leader.Reviewing? then r.leader.batch else [];
    EmptyConcat([id]);
    NewItemOk(r.items, Open(r), tokens);
    NewItemBatches(r, tokens, r.queue + [id]);
    Assoc(batch, r.queue, [id]);
  }

  lemma TakenInOrder(taken: seq<Batch>, queue: seq<nat>, size: nat, limit: nat)
    requires size <= |queue|
    ensures AllTaken(taken + [Batch(queue[..size], limit)]) + queue[size..] == AllTaken(taken) + queue
  {
    assert (taken + [Batch(queue[..size], limit)])[..|taken|] == taken;
    assert queue == queue[..size] + queue[size..];
  }

  lemma FirstBatchOk(items: seq<Item>, queue: seq<nat>, limit: nat)
    requires queue != [] && IdsOk(queue, |items|)
    ensures var size := BatchSize(items, queue, limit);
            size > 0 && BatchOk(items, Batch(queue[..size], limit))
  {
    BatchSizeIsMaximal(items, queue, limit, 0);
  }

  lemma TakenBatches(r: Review)
    requires BatchesOk(r) && IdsOk(r.queue, |r.items|) && r.queue != []
    ensures BatchesOk(Taken(r))
  {
    FirstBatchOk(r.items, r.queue, r.limit);
    TakenInOrder(r.taken, r.queue, BatchSize(r.items, r.queue, r.limit), r.limit);
  }

  lemma TakeOk(r: Review)
    requires ReviewOk(r) && r.leader.Gathering?
    ensures IdsOk(r.queue, |r.items|) && ReviewOk(Taken(r)) && |Taken(r).queue| < |r.queue|
  {
    EmptyConcat(r.queue);
    FirstBatchOk(r.items, r.queue, r.limit);
    TakenBatches(r);
    TakeDrop(r.queue, BatchSize(r.items, r.queue, r.limit));
  }

  lemma AnsweredOk(items: seq<Item>, batch: seq<nat>, rest: seq<nat>, answers: seq<Answer>)
    requires ItemsOk(items, batch + rest) && |answers| == |batch|
    ensures IdsOk(batch, |items|) && NoDup(batch) && ItemsOk(AnswerAll(items, batch, answers), rest)
  {
    NoDupSplit(batch, rest);
    IdsSplit(batch, rest, |items|);
    var r := AnswerAll(items, batch, answers);
    EachAnswered(items, batch, answers, 0);
    assert batch[0..] == batch;
    forall x | 0 <= x < |r|
      ensures if x in rest then r[x].answers == [] && !r[x].done else |r[x].answers| == 1 && r[x].done
    {
      assert x in batch + rest <==> x in batch || x in rest;
      if x in batch {
        var k :| 0 <= k < |batch| && batch[k] == x;
      }
    }
  }

  lemma IdsSplit(a: seq<nat>, b: seq<nat>, n: nat)
    requires IdsOk(a + b, n)
    ensures IdsOk(a, n) && IdsOk(b, n)
  {
    assert forall k :: 0 <= k < |a| ==> a[k] == (a + b)[k];
    assert forall k :: 0 <= k < |b| ==> b[k] == (a + b)[|a| + k];
  }

  lemma SwapOpen(items: seq<Item>, a: seq<nat>, b: seq<nat>)
    requires ItemsOk(items, a + b)
    ensures ItemsOk(items, b + a)
  {
    NoDupSwap(a, b);
    var s, t := a + b, b + a;
    forall k | 0 <= k < |t| ensures t[k] < |items| {
      assert t[k] in s;
    }
  }

  lemma HearOk(r: Review, reply: Reply)
    requires ReviewOk(r) && r.leader.Reviewing?
    ensures IdsOk(r.leader.batch, |r.items|) && IdsOk(r.queue, |r.items|) && ReviewOk(Heard(r, r.leader.batch, reply))
  {
    var batch := r.leader.batch;
    IdsSplit(batch, r.queue, |r.items|);
    match reply {
      case Decided(decisions) =>
        if |decisions| == |batch| { AnsweredBatch(r, Decisions(decisions)); }
      case Raised(error) =>
        AnsweredBatch(r, Same(|batch|, Failure(error)));
      case Cancelled(error) =>
        CancelOk(r, error);
    }
  }

  lemma AnsweredBatch(r: Review, answers: seq<Answer>)
    requires ReviewOk(r) && r.leader.Reviewing? && |answers| == |r.leader.batch| && IdsOk(r.leader.batch, |r.items|)
    ensures ReviewOk(r.(items := AnswerAll(r.items, r.leader.batch, answers), leader := Checking))
  {
    var batch := r.leader.batch;
    AnsweredOk(r.items, batch, r.queue, answers);
    AnswersKeepTokens(r.items, batch, answers);
    BatchesStay(r.items, AnswerAll(r.items, batch, answers), r.taken);
    assert [] + r.queue == r.queue;
  }

  lemma CancelOk(r: Review, error: string)
    requires ReviewOk(r) && r.leader.Reviewing? && IdsOk(r.leader.batch, |r.items|) && IdsOk(r.queue, |r.items|)
    ensures ReviewOk(Heard(r, r.leader.batch, Cancelled(error)))
  {
    var batch := r.leader.batch;
    var forQueue, forBatch := Same(|r.queue|, Failure(error)), Same(|batch|, Failure(error));
    SwapOpen(r.items, batch, r.queue);
    AnsweredOk(r.items, r.queue, batch, forQueue);
    var rest := AnswerAll(r.items, r.queue, forQueue);
    assert batch + [] == batch;
    AnsweredOk(rest, batch, [], forBatch);
    AnswersKeepTokens(r.items, r.queue, forQueue);
    AnswersKeepTokens(rest, batch, forBatch);
    BatchesStay(r.items, AnswerAll(rest, batch, forBatch), r.taken);
  }

  lemma StepOk(r: Review, a: Action)
    requires ReviewOk(r)
    ensures ReviewOk(Step(r, a))
  {
    match a {
      case Join(tokens, limit) => JoinOk(r, tokens, limit);
      case Take => if r.leader.Gathering? { TakeOk(r); }
      case Hear(reply) => if r.leader.Reviewing? { HearOk(r, reply); }
      case Check => if r.leader.Checking? { assert [] + r.queue == r.queue; }
    }
  }

  lemma {:induction false} RunOk(r: Review, actions: seq<Action>)
    requires ReviewOk(r)
    ensures ReviewOk(Run(r, actions))
    decreases |actions|
  {
    if actions != [] {
      StepOk(r, actions[0]);
      RunOk(Step(r, actions[0]), actions[1..]);
    }
  }

  // ---- what callers rely on

  /** In every interleaving an item is signalled done exactly when it has its one answer, it never gets a
      second, and an item without one is in the queue or in the hands of a leader who is still there. */
  lemma ExactlyOnce(actions: seq<Action>, x: nat)
    requires x < |Run(EMPTY, actions).items|
    ensures var r := Run(EMPTY, actions);
            && |r.items[x].answers| <= 1
            && (r.items[x].done <==> |r.items[x].answers| == 1)
            && (!r.items[x].done ==> x in Open(r) && r.registered && !r.leader.Gone?)
  {
    assert ItemsOk(EMPTY.items, Open(EMPTY));
    RunOk(EMPTY, actions);
  }

  /** Every batch is non-empty, has at most five items, and keeps within a positive token limit unless it is
      a single item; without cancellation the batches follow each other in the order of arrival. */
  lemma BatchesInOrder(actions: seq<Action>)
    ensures var r := Run(EMPTY, actions);
            && (forall k :: 0 <= k < |r.taken| ==> BatchOk(r.items, r.taken[k]))
            && (!r.cancelled ==> AllTaken(r.taken) + r.queue == Arrivals(|r.items|))
  {
    RunOk(EMPTY, actions);
  }

  /** Each item of a batch gets the decision of its own index, and no other item is touched. */
  lemma OwnDecision(r: Review, decisions: seq<string>)
    requires ReviewOk(r) && r.leader.Reviewing? && |decisions| == |r.leader.batch|
    ensures var s, batch := Step(r, Hear(Decided(decisions))), r.leader.batch;
            && |s.items| == |r.items| && IdsOk(batch, |s.items|)
            && (forall k :: 0 <= k < |batch| ==> s.items[batch[k]].answers == [Decision(decisions[k])])
            && (forall x :: 0 <= x < |r.items| && x !in batch ==> s.items[x] == r.items[x])
  {
    var batch := r.leader.batch;
    HearOk(r, Decided(decisions));
    AnsweredOk(r.items, batch, r.queue, Decisions(decisions));
    EachAnswered(r.items, batch, Decisions(decisions), 0);
    assert batch[0..] == batch;
    forall k | 0 <= k < |batch| ensures r.items[batch[k]].answers == [] {
      assert batch[k] == Open(r)[k] && batch[k] in Open(r);
    }
  }

  // ---- nobody is stranded

  /** The outcome of a review reaches the batch: decisions for all of it, an error, or a cancellation. */
  predicate Answers(r: Review, a: Action) {
    a.Hear? && r.leader.Reviewing? && (a.reply.Decided? ==> |a.reply.decisions| == |r.leader.batch|)
  }

  /** How many rounds the leaders get through. */
  function RoundsDone(r: Review, actions: seq<Action>): nat
    decreases |actions|
  {
    if actions == [] then 0 else (if Answers(r, actions[0]) then 1 else 0) + RoundsDone(Step(r, actions[0]), actions[1..])
  }

  lemma {:induction false} DoneRemain(items: seq<Item>, ids: seq<nat>, answers: seq<Answer>, i: nat, x: nat)
    requires |answers| == |ids| && i <= |ids| && IdsOk(ids, |items|) && x < |items| && items[x].done
    ensures AnswerAll(items, ids, answers, i)[x].done
    decreases |ids| - i
  {
    if i < |ids| { DoneRemain(items[ids[i] := Give(items[ids[i]], answers[i])], ids, answers, i + 1, x); }
  }

  lemma StepKeepsDone(r: Review, a: Action, x: nat)
    requires x < |r.items| && r.items[x].done
    ensures x < |Step(r, a).items| && Step(r, a).items[x].done
  {
    if a.Hear? && r.leader.Reviewing? && IdsOk(r.leader.batch, |r.items|) && IdsOk(r.queue, |r.items|) {
      var batch := r.leader.batch;
      match a.reply
      case Decided(decisions) => if |decisions| == |batch| { DoneRemain(r.items, batch, Decisions(decisions), 0, x); }
      case Raised(error) => DoneRemain(r.items, batch, Same(|batch|, Failure(error)), 0, x);
      case Cancelled(error) =>
        DoneRemain(r.items, r.queue, Same(|r.queue|, Failure(error)), 0, x);
        DoneRemain(AnswerAll(r.items, r.queue, Same(|r.queue|, Failure(error))), batch, Same(|batch|, Failure(error)), 0, x);
    }
  }

  lemma {:induction false} RunKeepsDone(r: Review, actions: seq<Action>, x: nat)
    requires x < |r.items| && r.items[x].done
    ensures x < |Run(r, actions).items| && Run(r, actions).items[x].done
    decreases |actions|
  {
    if actions != [] {
      StepKeepsDone(r, actions[0], x);
      RunKeepsDone(Step(r, actions[0]), actions[1..], x);
    }
  }

  /** A waiting item keeps its place in the line while no review is answered. */
  lemma PlaceKept(r: Review, a: Action)
    requires ReviewOk(r) && !Answers(r, a)
    ensures Open(r) <= Open(Step(r, a))
  {
    match a
    case Join(tokens, limit) =>
      var batch := if r.leader.Reviewing? then r.leader.batch else [];
      Assoc(batch, r.queue, [|r.items|]);
    case Take =>
      if r.leader.Gathering? {
        TakeOk(r);
        TakeDrop(r.queue, BatchSize(r.items, r.queue, r.limit));
        EmptyConcat(r.queue);
      }
    case Hear(reply) =>
    case Check =>
  }

  /** An answered review serves the front of the line, at least one item, or everybody. */
  lemma FrontServed(r: Review, a: Action)
    requires ReviewOk(r) && Answers(r, a)
    ensures var s, n := Step(r, a), |r.leader.batch|;
            && ReviewOk(s) && |s.items| == |r.items| && (Open(s) == [] || (Open(s) == Open(r)[n..] && n <= |Open(r)|))
  {
    StepOk(r, a);
    HearOk(r, a.reply);
    EmptyConcat(r.queue);
    assert (r.leader.batch + r.queue)[|r.leader.batch|..] == r.queue;
  }

  /** The batch under review is never empty. */
  predicate BatchFilled(r: Review) {
    r.leader.Reviewing? ==> r.leader.batch != []
  }

  lemma BatchStaysFilled(r: Review, a: Action)
    requires ReviewOk(r) && BatchFilled(r)
    ensures BatchFilled(Step(r, a))
  {
    if a.Take? && r.leader.Gathering? && IdsOk(r.queue, |r.items|) { FirstBatchOk(r.items, r.queue, r.limit); }
  }

  /** One answered review: the item is served, or has moved up by the size of the batch. */
  lemma ServedOrCloser(r: Review, a: Action, p: nat)
    requires ReviewOk(r) && Answers(r, a) && p < |Open(r)|
    ensures var s, n, x := Step(r, a), |r.leader.batch|, Open(r)[p];
            || (x < |s.items| && s.items[x].done)
            || (n <= p && p - n < |Open(s)| && Open(s)[p - n] == x)
  {
    FrontServed(r, a);
    var line, s, n := Open(r), Step(r, a), |r.leader.batch|;
    if p < n && Open(s) != [] { NotAhead(line, p, n); }
    assert line[p] in line;
  }

  /** Whoever waits is served within as many rounds as its place in the line, whatever the reviews bring and
      whoever joins meanwhile. */
  lemma {:induction false} Served(r: Review, actions: seq<Action>, p: nat)
    requires ReviewOk(r) && BatchFilled(r) && p < |Open(r)| && RoundsDone(r, actions) > p
    ensures var t, x := Run(r, actions), Open(r)[p];
            x < |t.items| && t.items[x].done
    decreases |actions|
  {
    var a, s, x := actions[0], Step(r, actions[0]), Open(r)[p];
    StepOk(r, a);
    BatchStaysFilled(r, a);
    if !Answers(r, a) {
      PlaceKept(r, a);
      Served(s, actions[1..], p);
    } else {
      ServedOrCloser(r, a, p);
      if x < |s.items| && s.items[x].done { RunKeepsDone(s, actions[1..], x); }
      else { Served(s, actions[1..], p - |r.leader.batch|); }
    }
  }

  lemma NotAhead(line: seq<nat>, p: nat, n: nat)
    requires NoDup(line) && p < n <= |line|
    ensures line[p] !in line[n..]
  {
    forall k | 0 <= k < |line[n..]| ensures line[n..][k] != line[p] { assert line[n..][k] == line[n + k]; }
  }

  lemma {:induction false} RunFilled(r: Review, actions: seq<Action>)
    requires ReviewOk(r) && BatchFilled(r)
    ensures ReviewOk(Run(r, actions)) && BatchFilled(Run(r, actions))
    decreases |actions|
  {
    if actions != [] {
      StepOk(r, actions[0]);
      BatchStaysFilled(r, actions[0]);
      RunFilled(Step(r, actions[0]), actions[1..]);
    }
  }

  /** After any history, an item in the queue, `k` items behind the front, has its one answer and is signalled
      done once the leaders have got through `k + 1` more rounds, whatever the reviews bring - decisions, errors,
      cancellations - and whoever joins in between; the same goes for the batch under review. */
  lemma LeaderEmptiesQueue(history: seq<Action>, actions: seq<Action>, k: nat)
    requires var r := Run(EMPTY, history); k < |Open(r)| && RoundsDone(r, actions) >= k + 1
    ensures var r := Run(EMPTY, history);
            var t, x := Run(r, actions), Open(r)[k];
            x < |t.items| && t.items[x].done && |t.items[x].answers| == 1
  {
    var r := Run(EMPTY, history);
    assert ItemsOk(EMPTY.items, Open(EMPTY));
    RunFilled(EMPTY, history);
    Served(r, actions, k);
    RunFilled(r, actions);
  }

  /** The leader's next action. */
  function LeaderAction(r: Review, reply: Reply): Action {
    match r.leader
    case Gathering => Take
    case Reviewing(_) => Hear(reply)
    case _ => Check
  }

  /** While somebody waits there is a leader, whom nobody can hold up: its next action changes the state, and
      within three of them it has got through a round. */
  lemma LeaderMovesOn(history: seq<Action>, error: string)
    requires Open(Run(EMPTY, history)) != []
    ensures var r := Run(EMPTY, history);
            var s := Step(r, LeaderAction(r, Raised(error)));
            && !r.leader.Gone?
            && (r.leader.Reviewing? ==> Answers(r, LeaderAction(r, Raised(error))))
            && (r.leader.Gathering? ==> s.leader.Reviewing?)
            && (r.leader.Checking? ==> s.leader.Gathering?)
  {
    assert ItemsOk(EMPTY.items, Open(EMPTY));
    RunFilled(EMPTY, history);
    var r := Run(EMPTY, history);
    if r.leader.Gathering? { TakeOk(r); }
  }

  // ---- the gate

  lemma Extended(items: seq<Item>, queue: seq<nat>, n: nat)
    requires n < |queue| && IdsOk(queue, |items|)
    ensures TokensOf(items, queue[..n + 1]) == TokensOf(items, queue[..n]) + items[queue[n]].tokens
  {
    assert queue[..n + 1][..n] == queue[..n];
  }

  /** The loop that pops the items of one batch off the queue. */
  method FormBatch(items: seq<Item>, queue: seq<nat>, limit: nat) returns (batch: seq<nat>, rest: seq<nat>)
    requires IdsOk(queue, |items|)
    ensures var size := BatchSize(items, queue, limit); batch == queue[..size] && rest == queue[size..]
  {
    batch, rest := [], queue;
    var n, tokens := 0, 0;
    while rest != [] && n < MAX_ITEMS
      invariant n <= |queue| && batch == queue[..n] && rest == queue[n..]
      invariant tokens == TokensOf(items, queue[..n])
      invariant BatchSize(items, queue, limit, n) == BatchSize(items, queue, limit)
      decreases |rest|
    {
      var next := items[rest[0]];
      if n > 0 && limit > 0 && tokens + next.tokens > limit { break; }
      assert Fits(items, queue, n, limit);
      Extended(items, queue, n);
      batch, rest := batch + [rest[0]], rest[1..];
      n, tokens := n + 1, tokens + next.tokens;
    }
    assert BatchSize(items, queue, limit, n) == n;
  }

  class ReviewGate {
    var items: seq<Item>
    var queue: seq<nat>
    var registered: bool
    var leader: Leader
    var limit: nat
    ghost var taken: seq<Batch>
    ghost var cancelled: bool

    constructor ()
      ensures View() == EMPTY
    {
      items, queue, registered, leader, limit, taken, cancelled := [], [], false, Gone, 0, [], false;
    }

    ghost function View(): Review
      reads this
    {
      Review(items, queue, registered, leader, limit, taken, cancelled)
    }

    /** The caller's region of `_review_retranslation_candidate_batched`. */
    method JoinGroup(tokens: nat, tokenLimit: nat) returns (leads: bool)
      modifies this
      ensures View() == Step(old(View()), Join(tokens, tokenLimit)) && (leads <==> !old(registered))
    {
      leads := !registered;
      items := items + [Item(tokens, [], false)];
      if leads {
        registered := true;
        queue := [];
        leader := Gathering;
        limit := tokenLimit;
      }
      queue := queue + [|items| - 1];
    }

    /** The leader's region that takes a batch. */
    method TakeBatch()
      requires leader.Gathering? && IdsOk(queue, |items|)
      modifies this
      ensures View() == Step(old(View()), Take)
    {
      var batch, rest := FormBatch(items, queue, limit);
      queue := rest;
      leader := Reviewing(batch);
      taken := taken + [Batch(batch, limit)];
    }

    method AnswerEach(ids: seq<nat>, answers: seq<Answer>)
      requires |answers| == |ids| && IdsOk(ids, |items|)
      modifies this`items
      ensures items == AnswerAll(old(items), ids, answers)
    {
      var i := 0;
      while i < |ids|
        invariant 0 <= i <= |ids| && |items| == |old(items)|
        invariant AnswerAll(items, ids, answers, i) == AnswerAll(old(items), ids, answers)
      {
        items := items[ids[i] := items[ids[i]].(answers := items[ids[i]].answers + [answers[i]], done := true)];
        i := i + 1;
      }
    }

    /** What the leader does with the outcome of a review. */
    method HearReply(reply: Reply)
      requires leader.Reviewing? && IdsOk(leader.batch, |items|) && IdsOk(queue, |items|)
      requires reply.Decided? ==> |reply.decisions| == |leader.batch|
      modifies this
      ensures View() == Step(old(View()), Hear(reply))
    {
      var batch := leader.batch;
      match reply {
        case Decided(decisions) =>
          AnswerEach(batch, Decisions(decisions));
          leader := Checking;
        case Raised(error) =>
          AnswerEach(batch, Same(|batch|, Failure(error)));
          leader := Checking;
        case Cancelled(error) =>
          AnswerEach(queue, Same(|queue|, Failure(error)));
          AnswerEach(batch, Same(|batch|, Failure(error)));
          queue := [];
          registered := false;
          leader := Gone;
          cancelled := true;
      }
    }

    method CheckQueue()
      requires leader.Checking?
      modifies this
      ensures View() == Step(old(View()), Check)
    {
      if queue == [] {
        registered := false;
        leader := Gone;
      } else {
        leader := Gathering;
      }
    }
  }
}
