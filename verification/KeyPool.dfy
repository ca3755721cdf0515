/** The pool of API keys of one task (transoria/runtime/key_pool.py) and the sending loop that rotates
    through it (transoria/llm/client.py). */
module KeyPool {
  import opened TextRules
  import opened Lists

  function Alive(keys: seq<string>, dead: set<string>): seq<string> {
    if keys == [] then [] else (if keys[0] in dead then [] else [keys[0]]) + Alive(keys[1..], dead)
  }

  lemma {:induction false} AliveMembers(keys: seq<string>, dead: set<string>)
    ensures forall k :: k in Alive(keys, dead) <==> k in keys && k !in dead
    ensures NoDup(keys) ==> NoDup(Alive(keys, dead))
  {
    if keys != [] {
      AliveMembers(keys[1..], dead);
      assert keys == [keys[0]] + keys[1..];
      var rest := Alive(keys[1..], dead);
      if NoDup(keys) {
        assert NoDup(keys[1..]) && keys[0] !in keys[1..];
        assert keys[0] !in rest;
        assert NoDup([keys[0]] + rest);
      }
    }
  }

  function KeySet(keys: seq<string>): set<string> {
    set k | k in keys
  }

  /** How many distinct keys are live. */
  ghost function LiveSize(keys: seq<string>, dead: set<string>): nat {
    |KeySet(keys) - dead|
  }

  // ---- round robin

  function Pick(alive: seq<string>, cursor: nat): string
    requires alive != []
  {
    alive[cursor % |alive|]
  }

  /** What `n` consecutive acquires return while no key is evicted. */
  function Picks(alive: seq<string>, cursor: nat, n: nat): seq<string>
    requires alive != []
  {
    seq(n, i requires 0 <= i < n => Pick(alive, cursor + i))
  }

  lemma ModStep(a: nat, n: nat)
    requires n > 0
    ensures (a + 1) % n == if a % n + 1 == n then 0 else a % n + 1
  {
    var q, r := a / n, a % n;
    assert a + 1 == n * q + (r + 1);
    if r + 1 == n { assert a + 1 == n * (q + 1); DivisionUnique(a + 1, n, q + 1, 0); } else { DivisionUnique(a + 1, n, q, r + 1); }
  }

  lemma MulBound(n: nat, d: int)
    ensures d >= 1 ==> n * d >= n
    ensures d <= -1 ==> n * d <= 0 - n
  {
    if d >= 1 { assert n * d == n + n * (d - 1); }
    if d <= -1 { assert n * d == n * (d + 1) - n; }
  }

  lemma DivisionUnique(a: nat, n: nat, q: nat, r: nat)
    requires a == n * q + r && r < n
    ensures a % n == r
  {
    var d := a / n - q;
    assert n * (a / n) == n * q + n * d;
    MulBound(n, d);
  }

  lemma {:induction false} ModShift(cursor: nat, i: nat, n: nat)
    requires n > 0 && i < n
    ensures (cursor + i) % n == if cursor % n + i < n then cursor % n + i else cursor % n + i - n
  {
    if i > 0 {
      ModShift(cursor, i - 1, n);
      ModStep(cursor + i - 1, n);
    }
  }

  /** A full round of acquires is the list of live keys, rotated. */
  lemma Rotation(alive: seq<string>, cursor: nat)
    requires alive != []
    ensures var r := cursor % |alive|; Picks(alive, cursor, |alive|) == alive[r..] + alive[..r]
  {
    var n, r := |alive|, cursor % |alive|;
    forall i | 0 <= i < n ensures Picks(alive, cursor, n)[i] == (alive[r..] + alive[..r])[i] {
      ModShift(cursor, i, n);
    }
  }

  lemma RotatedSame(s: seq<string>, r: nat)
    requires r <= |s|
    ensures multiset(s[r..] + s[..r]) == multiset(s)
    ensures forall k :: k in s[r..] + s[..r] <==> k in s
    ensures NoDup(s) ==> NoDup(s[r..] + s[..r])
  {
    var t := s[r..] + s[..r];
    assert s == s[..r] + s[r..];
    forall k ensures k in t <==> k in s { assert k in multiset(t) <==> k in multiset(s); }
  }

  // ---- any history of the pool

  datatype Pool = Pool(keys: seq<string>, cursor: nat, dead: set<string>)

  datatype Op = Acquire | MarkDead(key: string)

  function Do(p: Pool, op: Op): Pool {
    match op
    case Acquire => if Alive(p.keys, p.dead) == [] then p else p.(cursor := p.cursor + 1)
    case MarkDead(key) => if key in p.keys then p.(dead := p.dead + {key}) else p
  }

  /** The keys handed out by a history of operations. */
  function Acquired(p: Pool, ops: seq<Op>): seq<string>
    decreases |ops|
  {
    if ops == [] then [] else
    var alive := Alive(p.keys, p.dead);
    (if ops[0].Acquire? && alive != [] then [Pick(alive, p.cursor)] else []) + Acquired(Do(p, ops[0]), ops[1..])
  }

  function After(p: Pool, ops: seq<Op>): Pool
    decreases |ops|
  {
    if ops == [] then p else After(Do(p, ops[0]), ops[1..])
  }

  function Acquires(ops: seq<Op>): nat {
    if ops == [] then 0 else (if ops[0].Acquire? then 1 else 0) + Acquires(ops[1..])
  }

  /** The operations evict nothing: what they mark is dead already, or not in the pool. */
  ghost predicate NoEviction(p: Pool, ops: seq<Op>) {
    forall k :: 0 <= k < |ops| && ops[k].MarkDead? ==> ops[k].key !in p.keys || ops[k].key in p.dead
  }

  /** While nothing is evicted the keys handed out go round the live ones from the cursor on. */
  lemma {:induction false} AcquiresGoRound(p: Pool, ops: seq<Op>)
    requires NoEviction(p, ops) && Alive(p.keys, p.dead) != []
    ensures Acquired(p, ops) == Picks(Alive(p.keys, p.dead), p.cursor, Acquires(ops))
    decreases |ops|
  {
    var alive := Alive(p.keys, p.dead);
    if ops != [] {
      var q := Do(p, ops[0]);
      if ops[0].MarkDead? {
        MarkedAlready(p, ops[0].key);
        AcquiresGoRound(p, ops[1..]);
      } else {
        AcquiresGoRound(q, ops[1..]);
        NextPick(alive, p.cursor, Acquires(ops[1..]));
      }
    }
  }

  lemma MarkedAlready(p: Pool, key: string)
    requires key !in p.keys || key in p.dead
    ensures Do(p, MarkDead(key)) == p
  {
    if key in p.dead { assert p.dead + {key} == p.dead; }
  }

  lemma NextPick(alive: seq<string>, cursor: nat, n: nat)
    requires alive != []
    ensures Picks(alive, cursor, n + 1) == [Pick(alive, cursor)] + Picks(alive, cursor + 1, n)
  {
  }

  /** After any history, in any stretch without an eviction, as many acquires as there are live keys hand out
      each of them, exactly once if the keys are distinct, and no other. */
  lemma EachKeyOnce(p: Pool, history: seq<Op>, stretch: seq<Op>)
    requires var q := After(p, history);
             NoEviction(q, stretch) && Acquires(stretch) == |Alive(q.keys, q.dead)| > 0
    ensures var q := After(p, history);
            var got := Acquired(q, stretch);
            && multiset(got) == multiset(Alive(q.keys, q.dead))
            && (forall k :: k in got <==> k in q.keys && k !in q.dead)
            && (NoDup(q.keys) ==> NoDup(got))
  {
    var q := After(p, history);
    var alive := Alive(q.keys, q.dead);
    AcquiresGoRound(q, stretch);
    Rotation(alive, q.cursor);
    AliveMembers(q.keys, q.dead);
    RotatedSame(alive, q.cursor % |alive|);
  }

  /** A key that is dead is never handed out again. */
  lemma {:induction false} DeadStaysDead(p: Pool, ops: seq<Op>, key: string)
    requires key in p.dead
    ensures key !in Acquired(p, ops) && key in After(p, ops).dead
    decreases |ops|
  {
    if ops != [] {
      AliveMembers(p.keys, p.dead);
      var alive := Alive(p.keys, p.dead);
      if alive != [] { assert Pick(alive, p.cursor) in alive; }
      DeadStaysDead(Do(p, ops[0]), ops[1..], key);
    }
  }

  // ---- how many are left

  /** `alive_count` is the number of live keys exactly when the keys are distinct. */
  lemma AliveCountIsExact(keys: seq<string>, dead: set<string>)
    requires dead <= KeySet(keys)
    ensures |keys| - |dead| == |KeySet(keys) - dead| <==> NoDup(keys)
  {
    SetCount(keys);
    assert KeySet(keys) == (set k | k in keys);
    assert KeySet(keys) == (KeySet(keys) - dead) + dead;
  }

  // ---- the pool and the sending loop

  class KeyRing {
    const keys: seq<string>
    var cursor: nat
    var dead: set<string>

    constructor (keys: seq<string>)
      requires keys != []
      ensures View() == Pool(keys, 0, {}) && Valid()
    {
      this.keys, cursor, dead := keys, 0, {};
    }

    function View(): Pool
      reads this
    {
      Pool(keys, cursor, dead)
    }

    ghost predicate Valid()
      reads this
    {
      keys != [] && dead <= KeySet(keys)
    }

    /** The comprehension over the keys in `acquire`. */
    method LiveKeys() returns (alive: seq<string>)
      ensures alive == Alive(keys, dead)
    {
      alive := [];
      assert keys[0..] == keys;
      for i := 0 to |keys|
        invariant alive + Alive(keys[i..], dead) == Alive(keys, dead)
      {
        assert keys[i..][0] == keys[i] && keys[i..][1..] == keys[i + 1..];
        if keys[i] !in dead {
          Assoc(alive, [keys[i]], Alive(keys[i + 1..], dead));
          alive := alive + [keys[i]];
        } else {
          assert Alive(keys[i..], dead) == Alive(keys[i + 1..], dead);
        }
      }
      EmptyConcat(alive);
    }

    /** `acquire`: fails exactly when every key is dead. */
    method AcquireKey() returns (key: Option<string>)
      requires Valid()
      modifies this`cursor
      ensures Valid() && View() == Do(old(View()), Acquire)
      ensures key.Some? ==>
                Alive(keys, dead) != [] && key.value == Pick(Alive(keys, dead), old(cursor)) && key.value in keys && key.value !in dead
      ensures key.None? <==> KeySet(keys) <= dead
    {
      var alive := LiveKeys();
      LivePick(keys, dead, cursor);
      if alive == [] { return None; }
      var picked := alive[cursor % |alive|];
      cursor := cursor + 1;
      return Some(picked);
    }

    /** `mark_dead`. */
    method Evict(key: string)
      requires Valid()
      modifies this`dead
      ensures Valid() && View() == Do(old(View()), MarkDead(key))
    {
      if key in keys { dead := dead + {key}; }
    }

    method NextKey() returns (key: Option<string>)
      requires Valid()
      modifies this`cursor
      ensures Valid() && (key.None? <==> LiveSize(keys, dead) == 0)
      ensures key.Some? ==> InTurn(keys, dead, old(cursor), key.value) && cursor == old(cursor) + 1
    {
      NoneLive(keys, dead);
      key := AcquireKey();
      if key.Some? { assert key.value in KeySet(keys); }
    }

    /** A refusal evicts the key it was for. */
    method Hear(key: string, status: nat, ghost turn: nat)
      requires Valid() && InTurn(keys, dead, turn, key)
      modifies this`dead
      ensures Valid() && dead == Marked(old(dead), status, key)
      ensures LiveSize(keys, dead) == old(LiveSize(keys, dead)) - (if Refusal(status) then 1 else 0)
    {
      LivePick(keys, dead, turn);
      OneFewer(keys, dead, key);
      if Refusal(status) { Evict(key); }
    }

    /** The loop of `_send_with_pool`, used alone: `replies` are the status codes the provider gives in turn, and
        `sent` are the keys of the requests they answer. The outcome and how far it comes depend on the replies
        and the number of distinct live keys only. */
    method Send(replies: seq<nat>) returns (outcome: Outcome, sent: seq<string>)
      requires Valid()
      modifies this
      ensures Valid() && |sent| <= |replies|
      ensures (outcome, |sent|) == Sending(replies, 0, LiveSize(keys, old(dead)))
      ensures SentInTurn(old(View()), replies, sent) && dead == DeadAfter(old(dead), replies, sent)
    {
      sent := [];
      ghost var first, all := View(), LiveSize(keys, dead);
      ghost var live := all;
      while true
        invariant Valid() && |sent| <= |replies| && live == LiveSize(keys, dead) && cursor == first.cursor + |sent|
        invariant SentInTurn(first, replies, sent) && dead == DeadAfter(first.dead, replies, sent)
        invariant Sending(replies, |sent|, live) == Sending(replies, 0, all)
        decreases |replies| - |sent|
      {
        ghost var turn := cursor;
        var key := NextKey();
        if key.None? { return AllKeysFailed, sent; }
        if |sent| == |replies| { return OutOfReplies, sent; }
        var status := replies[|sent|];
        SentMore(keys, first, replies, sent, dead, turn, key.value);
        Hear(key.value, status, turn);
        sent := sent + [key.value];
        live := if Refusal(status) then live - 1 else live;
        if !Refusal(status) && status != 429 { return Answer(status), sent; }
      }
    }
  }

  predicate Refusal(status: nat) {
    status == 401 || status == 403
  }

  /** Who is dead once the requests with the keys `sent` have been answered. */
  function DeadAfter(dead: set<string>, replies: seq<nat>, sent: seq<string>): set<string>
    requires |sent| <= |replies|
  {
    if sent == [] then dead else
    var last := |sent| - 1;
    Marked(DeadAfter(dead, replies, sent[..last]), replies[last], sent[last])
  }

  function Marked(dead: set<string>, status: nat, key: string): set<string> {
    if Refusal(status) then dead + {key} else dead
  }

  /** They are those that were dead at first and those whose requests were refused. */
  lemma {:induction false} DeadAreRefused(dead: set<string>, replies: seq<nat>, sent: seq<string>)
    requires |sent| <= |replies|
    ensures forall k :: k in DeadAfter(dead, replies, sent) <==>
              k in dead || exists i :: 0 <= i < |sent| && replies[i] in {401, 403} && sent[i] == k
  {
    if sent != [] {
      var last := |sent| - 1;
      var before := sent[..last];
      DeadAreRefused(dead, replies, before);
      forall k | exists i :: 0 <= i < |sent| && replies[i] in {401, 403} && sent[i] == k ensures k in DeadAfter(dead, replies, sent) {
        var i :| 0 <= i < |sent| && replies[i] in {401, 403} && sent[i] == k;
        if i < last { assert before[i] == k; }
      }
    }
  }

  /** Each key sent was the next in turn among those not dead at first and not refused since. */
  predicate SentInTurn(p: Pool, replies: seq<nat>, sent: seq<string>)
    requires |sent| <= |replies|
  {
    sent == [] ||
    var last := |sent| - 1;
    SentInTurn(p, replies, sent[..last]) && InTurn(p.keys, DeadAfter(p.dead, replies, sent[..last]), p.cursor + last, sent[last])
  }

  predicate InTurn(keys: seq<string>, dead: set<string>, cursor: nat, key: string) {
    Alive(keys, dead) != [] && key == Pick(Alive(keys, dead), cursor)
  }

  /** So no key is sent again after it was refused. */
  lemma {:induction false} RefusedOnce(p: Pool, replies: seq<nat>, sent: seq<string>, i: nat, j: nat)
    requires |sent| <= |replies| && SentInTurn(p, replies, sent) && i < j < |sent| && replies[i] in {401, 403}
    ensures sent[i] != sent[j]
    decreases |sent|
  {
    var last := |sent| - 1;
    var before := sent[..last];
    if j == last {
      DeadAreRefused(p.dead, replies, before);
      assert before[i] in DeadAfter(p.dead, replies, before);
      LivePick(p.keys, DeadAfter(p.dead, replies, before), p.cursor + last);
    } else {
      RefusedOnce(p, replies, before, i, j);
      assert before[i] == sent[i] && before[j] == sent[j];
    }
  }

  /** `OutOfReplies`: still waiting for the next reply. */
  datatype Outcome = Answer(status: nat) | AllKeysFailed | OutOfReplies

  /** What becomes of a request with so many live keys after `k` replies, and how many replies it takes in all. */
  function Sending(replies: seq<nat>, k: nat, live: nat): (Outcome, nat)
    requires k <= |replies|
    decreases |replies| - k
  {
    if live == 0 then (AllKeysFailed, k)
    else if k == |replies| then (OutOfReplies, k)
    else if !Refusal(replies[k]) && replies[k] != 429 then (Answer(replies[k]), k + 1)
    else Sending(replies, k + 1, if Refusal(replies[k]) then live - 1 else live)
  }

  /** How many of the replies from `k` on and before `end` are refusals. */
  function Refusals(replies: seq<nat>, k: nat, end: nat): nat
    requires k <= end <= |replies|
    decreases end - k
  {
    if k == end then 0 else (if replies[k] in {401, 403} then 1 else 0) + Refusals(replies, k + 1, end)
  }

  lemma {:induction false} RefusalsFrom(replies: seq<nat>, k: nat, live: nat)
    requires k <= |replies|
    ensures var (outcome, used) := Sending(replies, k, live);
            && k <= used <= |replies| && Refusals(replies, k, used) <= live
            && (outcome.AllKeysFailed? <==> Refusals(replies, k, used) == live)
            && (outcome.AllKeysFailed? && used > k ==> replies[used - 1] in {401, 403})
            && (outcome.OutOfReplies? ==> used == |replies|)
            && (outcome.Answer? ==> used > k && outcome.status == replies[used - 1] && outcome.status !in {401, 403, 429})
            && forall i :: k <= i < used && !(outcome.Answer? && i == used - 1) ==> replies[i] in {401, 403, 429}
    decreases |replies| - k
  {
    if live > 0 && k < |replies| && replies[k] in {401, 403, 429} {
      RefusalsFrom(replies, k + 1, if Refusal(replies[k]) then live - 1 else live);
    }
  }

  /** A request sees at most as many refusals as there are distinct live keys, and fails exactly when it has seen
      that many, right after the last; it ends with the first reply that is neither a refusal nor a rate limit. */
  lemma RefusalsBounded(replies: seq<nat>, live: nat)
    ensures var (outcome, used) := Sending(replies, 0, live);
            && used <= |replies| && Refusals(replies, 0, used) <= live
            && (outcome.AllKeysFailed? <==> Refusals(replies, 0, used) == live)
            && (outcome.AllKeysFailed? && used > 0 ==> replies[used - 1] in {401, 403})
            && (outcome.OutOfReplies? ==> used == |replies|)
            && (outcome.Answer? ==> used > 0 && outcome.status == replies[used - 1] && outcome.status !in {401, 403, 429})
            && forall i :: 0 <= i < used && !(outcome.Answer? && i == used - 1) ==> replies[i] in {401, 403, 429}
  {
    RefusalsFrom(replies, 0, live);
  }

  // ---- sets of keys

  lemma LivePick(keys: seq<string>, dead: set<string>, cursor: nat)
    ensures var alive := Alive(keys, dead);
            if alive == [] then KeySet(keys) <= dead
            else !(KeySet(keys) <= dead) && Pick(alive, cursor) in keys && Pick(alive, cursor) !in dead
  {
    var alive := Alive(keys, dead);
    AliveMembers(keys, dead);
    if alive == [] {
      forall k | k in KeySet(keys) ensures k in dead { assert k !in alive; }
    } else {
      assert Pick(alive, cursor) in alive && Pick(alive, cursor) in KeySet(keys);
    }
  }

  lemma NoneLive(keys: seq<string>, dead: set<string>)
    ensures LiveSize(keys, dead) == 0 <==> KeySet(keys) <= dead
  {
    if KeySet(keys) <= dead {
      assert KeySet(keys) - dead == {};
    } else {
      var k :| k in KeySet(keys) && k !in dead;
      assert k in KeySet(keys) - dead;
    }
  }

  lemma OneFewer(keys: seq<string>, dead: set<string>, key: string)
    requires key in keys && key !in dead
    ensures LiveSize(keys, dead) > 0 && LiveSize(keys, dead + {key}) == LiveSize(keys, dead) - 1
  {
    assert KeySet(keys) - dead == (KeySet(keys) - (dead + {key})) + {key};
  }

  lemma SentMore(keys: seq<string>, p: Pool, replies: seq<nat>, sent: seq<string>, dead: set<string>, turn: nat, key: string)
    requires |sent| < |replies| && SentInTurn(p, replies, sent) && dead == DeadAfter(p.dead, replies, sent)
    requires p.keys == keys && turn == p.cursor + |sent| && InTurn(keys, dead, turn, key)
    ensures SentInTurn(p, replies, sent + [key])
    ensures DeadAfter(p.dead, replies, sent + [key]) == Marked(dead, replies[|sent|], key)
  {
    var more := sent + [key];
    var last := |more| - 1;
    assert more[..last] == sent && more[last] == key && p.cursor + last == turn;
  }
}
