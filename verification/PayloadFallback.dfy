/** Retries without the payload fields that a provider rejects (transoria/llm/client.py). */
module PayloadFallback {
  import opened TextRules

  datatype Json = Object(fields: map<string, Json>) | Array(items: seq<Json>) | Scalar(text: string)

  type Payload = map<string, Json>

  const OPTIONAL_FIELDS: seq<string> :=
    ["thinking", "reasoning_effort", "thinkingConfig", "cache_control", "temperature", "topP",
     "presencePenalty", "frequencyPenalty", "top_p", "presence_penalty", "frequency_penalty"]
  const STREAM_OPTIONS := "stream_options"
  const STREAM := "stream"
  const FIELDS: seq<string> := OPTIONAL_FIELDS + [STREAM_OPTIONS, STREAM]
  const DROPPABLE: set<string> := set f | f in FIELDS
  const OFF_FLAGS: set<string> := {"thinking", "thinkingConfig"}

  const CONFIG := "generationConfig"
  const SYSTEM := "system"
  const CACHE := "cache_control"

  // ---- fields of a payload

  predicate HasBlock(p: Payload, f: string) {
    SYSTEM in p && p[SYSTEM].Array? && exists i | 0 <= i < |p[SYSTEM].items| ::
      p[SYSTEM].items[i].Object? && f in p[SYSTEM].items[i].fields
  }

  /** `_payload_contains_field`. */
  predicate Contains(p: Payload, f: string) {
    f in p || (CONFIG in p && p[CONFIG].Object? && f in p[CONFIG].fields) || (f == CACHE && HasBlock(p, f))
  }

  /** What `_payload_field_value` finds. */
  datatype Value = Absent | One(value: Json) | Several(values: seq<Json>)

  function BlockValues(blocks: seq<Json>, f: string): seq<Json> {
    if blocks == [] then []
    else (if blocks[0].Object? && f in blocks[0].fields then [blocks[0].fields[f]] else []) + BlockValues(blocks[1..], f)
  }

  function FieldValue(p: Payload, f: string): Value {
    if f in p then One(p[f])
    else if CONFIG in p && p[CONFIG].Object? && f in p[CONFIG].fields then One(p[CONFIG].fields[f])
    else if f == CACHE && SYSTEM in p && p[SYSTEM].Array? then Several(BlockValues(p[SYSTEM].items, f))
    else Absent
  }

  function DropBlock(block: Json, f: string): Json {
    if block.Object? then Object(block.fields - {f}) else block
  }

  function DropBlocks(blocks: seq<Json>, f: string): seq<Json> {
    seq(|blocks|, i requires 0 <= i < |blocks| => DropBlock(blocks[i], f))
  }

  function DropFromConfig(p: Payload, f: string): Payload {
    if CONFIG in p && p[CONFIG].Object? then
      var rest := p[CONFIG].fields - {f};
      if rest == map[] then p - {CONFIG} else p[CONFIG := Object(rest)]
    else p
  }

  function DropFromSystem(p: Payload, f: string): Payload {
    if f == CACHE && SYSTEM in p && p[SYSTEM].Array? then p[SYSTEM := Array(DropBlocks(p[SYSTEM].items, f))] else p
  }

  /** `_drop_payload_field`. */
  function Drop(p: Payload, f: string): Payload {
    DropFromSystem(DropFromConfig(p - {f}, f), f)
  }

  function DropAll(p: Payload, fs: seq<string>): Payload {
    if fs == [] then p else DropAll(Drop(p, fs[0]), fs[1..])
  }

  // ---- what dropping keeps

  /** Everything but the droppable fields, wherever they occur; an emptied configuration does not count. */
  function CoreValue(k: string, v: Json): Json {
    if k == CONFIG && v.Object? then Object(v.fields - DROPPABLE)
    else if k == SYSTEM && v.Array? then Array(DropBlocks(v.items, CACHE))
    else v
  }

  predicate InCore(p: Payload, k: string) {
    k in p && k !in DROPPABLE && !(k == CONFIG && p[k].Object? && p[k].fields - DROPPABLE == map[])
  }

  function Core(p: Payload): Payload {
    map k | k in p && InCore(p, k) :: CoreValue(k, p[k])
  }

  function TopFlags(p: Payload): Payload {
    map k | k in p && k in OFF_FLAGS :: p[k]
  }

  function ConfigFlags(p: Payload): Payload {
    if CONFIG in p && p[CONFIG].Object? then map k | k in p[CONFIG].fields && k in OFF_FLAGS :: p[CONFIG].fields[k]
    else map[]
  }

  /** The flags that turn thinking off, at the top and in the configuration. */
  function OffFlags(p: Payload): (Payload, Payload) {
    (TopFlags(p), ConfigFlags(p))
  }

  lemma OptionalNames()
    ensures forall f :: f in OPTIONAL_FIELDS ==> f in DROPPABLE
    ensures STREAM in DROPPABLE && STREAM_OPTIONS in DROPPABLE
  {
    assert FIELDS[12] == STREAM && FIELDS[11] == STREAM_OPTIONS;
  }

  lemma ListedNames()
    ensures CACHE in DROPPABLE && OFF_FLAGS <= DROPPABLE && STREAM !in OFF_FLAGS && STREAM_OPTIONS !in OFF_FLAGS
  {
    OptionalNames();
    assert OPTIONAL_FIELDS[3] == CACHE && OPTIONAL_FIELDS[0] == "thinking" && OPTIONAL_FIELDS[2] == "thinkingConfig";
  }

  lemma CoreNames()
    ensures CONFIG !in DROPPABLE && SYSTEM !in DROPPABLE
  {
    assert forall i :: 0 <= i < 13 ==> FIELDS[i] != CONFIG && FIELDS[i] != SYSTEM;
  }

  lemma Names()
    ensures CONFIG !in DROPPABLE && SYSTEM !in DROPPABLE && CACHE in DROPPABLE
    ensures STREAM in DROPPABLE && STREAM_OPTIONS in DROPPABLE
    ensures forall f :: f in OPTIONAL_FIELDS ==> f in DROPPABLE
    ensures OFF_FLAGS <= DROPPABLE && STREAM !in OFF_FLAGS && STREAM_OPTIONS !in OFF_FLAGS
  {
    OptionalNames();
    ListedNames();
    CoreNames();
  }

  lemma RestFields(m: map<string, Json>, f: string)
    requires f in DROPPABLE
    ensures (m - {f}) - DROPPABLE == m - DROPPABLE
  {
  }

  lemma {:induction false} BlocksTwice(blocks: seq<Json>)
    ensures DropBlocks(DropBlocks(blocks, CACHE), CACHE) == DropBlocks(blocks, CACHE)
  {
    forall i | 0 <= i < |blocks|
      ensures DropBlock(DropBlock(blocks[i], CACHE), CACHE) == DropBlock(blocks[i], CACHE)
    {
      if blocks[i].Object? {
        var m := blocks[i].fields;
        assert (m - {CACHE}) - {CACHE} == m - {CACHE};
      }
    }
  }

  lemma ConfigCore(p: Payload, f: string)
    requires f in DROPPABLE
    ensures Core(DropFromConfig(p, f)) == Core(p)
  {
    Names();
    if CONFIG in p && p[CONFIG].Object? {
      RestFields(p[CONFIG].fields, f);
      var q := DropFromConfig(p, f);
      assert forall k :: k != CONFIG ==> (k in q <==> k in p) && (k in p ==> q[k] == p[k]);
      assert forall k :: InCore(q, k) <==> InCore(p, k);
      assert forall k :: InCore(p, k) ==> CoreValue(k, q[k]) == CoreValue(k, p[k]);
    }
  }

  /** Another value for a field of the core that means the same. */
  lemma SameCore(p: Payload, f: string, v: Json)
    requires f in p && f !in DROPPABLE && f != CONFIG && CoreValue(f, v) == CoreValue(f, p[f])
    ensures Core(p[f := v]) == Core(p)
  {
  }

  lemma SystemCore(p: Payload, f: string)
    ensures Core(DropFromSystem(p, f)) == Core(p)
  {
    Names();
    if f == CACHE && SYSTEM in p && p[SYSTEM].Array? {
      BlocksTwice(p[SYSTEM].items);
      SameCore(p, SYSTEM, Array(DropBlocks(p[SYSTEM].items, f)));
    }
  }

  /** Dropping a droppable field loses nothing else. */
  lemma DropKeepsCore(p: Payload, f: string)
    requires f in DROPPABLE
    ensures Core(Drop(p, f)) == Core(p)
  {
    Names();
    assert Core(p - {f}) == Core(p);
    ConfigCore(p - {f}, f);
    SystemCore(DropFromConfig(p - {f}, f), f);
  }

  lemma ConfigKeepsOffFlags(p: Payload, f: string)
    requires f !in OFF_FLAGS
    ensures OffFlags(DropFromConfig(p, f)) == OffFlags(p)
  {
    Names();
    var q := DropFromConfig(p, f);
    SameTopFlags(p, q);
    if CONFIG in p && p[CONFIG].Object? { RestKeepsOffFlags(p, f); }
  }

  lemma SameTopFlags(p: Payload, q: Payload)
    requires forall k :: k in OFF_FLAGS ==> (k in q <==> k in p) && (k in p ==> q[k] == p[k])
    ensures TopFlags(q) == TopFlags(p)
  {
  }

  lemma RestKeepsOffFlags(p: Payload, f: string)
    requires f !in OFF_FLAGS && CONFIG in p && p[CONFIG].Object?
    ensures ConfigFlags(DropFromConfig(p, f)) == ConfigFlags(p)
  {
    var rest := p[CONFIG].fields - {f};
    assert forall k :: k in OFF_FLAGS ==> (k in rest <==> k in p[CONFIG].fields);
    if rest == map[] { assert forall k :: k in OFF_FLAGS ==> k !in rest; }
  }

  lemma TopKeepsOffFlags(p: Payload, f: string)
    requires f in DROPPABLE && f !in OFF_FLAGS
    ensures OffFlags(p - {f}) == OffFlags(p)
  {
    Names();
    assert TopFlags(p - {f}) == TopFlags(p);
  }

  lemma SystemKeepsOffFlags(p: Payload, f: string)
    ensures OffFlags(DropFromSystem(p, f)) == OffFlags(p)
  {
    Names();
    assert TopFlags(DropFromSystem(p, f)) == TopFlags(p);
  }

  lemma DropKeepsOffFlags(p: Payload, f: string)
    requires f in DROPPABLE && f !in OFF_FLAGS
    ensures OffFlags(Drop(p, f)) == OffFlags(p)
  {
    TopKeepsOffFlags(p, f);
    ConfigKeepsOffFlags(p - {f}, f);
    SystemKeepsOffFlags(DropFromConfig(p - {f}, f), f);
  }

  /** The field is gone, and no other has appeared. */
  lemma DropRemoves(p: Payload, f: string, x: string)
    requires f in DROPPABLE && x in DROPPABLE
    ensures !Contains(Drop(p, f), f)
    ensures Contains(Drop(p, f), x) ==> Contains(p, x)
  {
    Names();
    var q := DropFromConfig(p - {f}, f);
    assert !(f in q) && !(CONFIG in q && q[CONFIG].Object? && f in q[CONFIG].fields);
    if f == CACHE && SYSTEM in q && q[SYSTEM].Array? {
      var r := Drop(p, f);
      assert forall i :: 0 <= i < |q[SYSTEM].items| ==> r[SYSTEM].items[i] == DropBlock(q[SYSTEM].items[i], f);
    }
  }

  /** A field is there, with this value. */
  ghost predicate SameField(p: Payload, q: Payload, x: string) {
    (Contains(q, x) <==> Contains(p, x)) && FieldValue(q, x) == FieldValue(p, x)
  }

  lemma ConfigTakesOnly(p: Payload, f: string, x: string)
    requires x in DROPPABLE && x != f
    ensures SameField(p, DropFromConfig(p, f), x)
  {
    Names();
    if CONFIG in p && p[CONFIG].Object? {
      var rest := p[CONFIG].fields - {f};
      if rest == map[] { assert x !in rest; }
    }
  }

  /** Every other field is as it was. */
  lemma DropTakesOnly(p: Payload, f: string, x: string)
    requires f in DROPPABLE && x in DROPPABLE && x != f
    ensures SameField(p, Drop(p, f), x)
  {
    Names();
    var q := p - {f};
    assert SameField(p, q, x);
    ConfigTakesOnly(q, f, x);
    if f == CACHE {
      var r := DropFromConfig(q, f);
      assert SameField(r, DropFromSystem(r, f), x);
    }
  }

  /** Dropping several fields takes exactly these. */
  lemma {:induction false} DropAllExactly(p: Payload, fs: seq<string>, x: string)
    requires x in DROPPABLE && forall f :: f in fs ==> f in DROPPABLE
    ensures if x in fs then !Contains(DropAll(p, fs), x) else SameField(p, DropAll(p, fs), x)
  {
    if fs != [] {
      assert fs == [fs[0]] + fs[1..];
      var q := Drop(p, fs[0]);
      if x == fs[0] {
        DropRemoves(p, x, x);
        StaysGone(q, fs[1..], x);
      } else {
        DropTakesOnly(p, fs[0], x);
        DropAllExactly(q, fs[1..], x);
      }
    }
  }

  lemma {:induction false} StaysGone(p: Payload, fs: seq<string>, x: string)
    requires x in DROPPABLE && (forall f :: f in fs ==> f in DROPPABLE) && !Contains(p, x)
    ensures !Contains(DropAll(p, fs), x)
  {
    if fs != [] {
      assert fs == [fs[0]] + fs[1..];
      DropRemoves(p, fs[0], x);
      StaysGone(Drop(p, fs[0]), fs[1..], x);
    }
  }

  // ---- how many retries there can be

  function Count(p: Payload, fs: seq<string>): (n: nat)
    ensures n <= |fs|
  {
    if fs == [] then 0 else (if Contains(p, fs[0]) then 1 else 0) + Count(p, fs[1..])
  }

  lemma {:induction false} CountFewer(p: Payload, q: Payload, fs: seq<string>, f: string)
    requires forall x :: x in fs && Contains(q, x) ==> Contains(p, x)
    ensures Count(q, fs) <= Count(p, fs)
    ensures f in fs && Contains(p, f) && !Contains(q, f) ==> Count(q, fs) < Count(p, fs)
  {
    if fs != [] {
      assert fs == [fs[0]] + fs[1..];
      CountFewer(p, q, fs[1..], f);
    }
  }

  lemma {:induction false} DropAllOk(p: Payload, fs: seq<string>, f: string)
    requires forall x :: x in fs ==> x in DROPPABLE
    requires f in DROPPABLE
    ensures Core(DropAll(p, fs)) == Core(p)
    ensures (forall x :: x in fs ==> x !in OFF_FLAGS) ==> OffFlags(DropAll(p, fs)) == OffFlags(p)
    ensures Count(DropAll(p, fs), FIELDS) <= Count(p, FIELDS)
    ensures f in fs && Contains(p, f) ==> Count(DropAll(p, fs), FIELDS) < Count(p, FIELDS)
  {
    if fs != [] {
      assert fs == [fs[0]] + fs[1..];
      var q := Drop(p, fs[0]);
      DropKeepsCore(p, fs[0]);
      if fs[0] !in OFF_FLAGS { DropKeepsOffFlags(p, fs[0]); }
      forall x | x in FIELDS ensures Contains(q, x) ==> Contains(p, x) { DropRemoves(p, fs[0], x); }
      DropRemoves(p, fs[0], f);
      CountFewer(p, q, FIELDS, fs[0]);
      DropAllOk(q, fs[1..], f);
      if f in fs && Contains(p, f) && fs[0] != f && !Contains(q, f) { CountFewer(p, q, FIELDS, f); }
    }
  }

  // ---- the provider's answers

  /** What the code reads from a response: its status, the field names its error rejects, and how it speaks
      of streaming and of thinking. */
  datatype Reply = Reply(status: nat, rejects: set<string>, mentionsStreamOptions: bool, rejectsStreaming: bool,
                         thinks: bool)

  predicate Rejection(r: Reply) {
    r.status == 400 || r.status == 422
  }

  function FirstRejected(p: Payload, r: Reply, fs: seq<string>): (f: Option<string>)
    ensures f.Some? ==> f.value in fs && Contains(p, f.value) && f.value in r.rejects
    ensures f.None? ==> forall x :: x in fs && Contains(p, x) ==> x !in r.rejects
  {
    if fs == [] then None
    else if Contains(p, fs[0]) && fs[0] in r.rejects then Some(fs[0])
    else FirstRejected(p, r, fs[1..])
  }

  /** `_payload_rejection_fallback`: the fields to drop. */
  function Fallback(p: Payload, r: Reply): Option<seq<string>> {
    if !Rejection(r) then None
    else if STREAM_OPTIONS in p && (STREAM_OPTIONS in r.rejects || "include_usage" in r.rejects) then Some([STREAM_OPTIONS])
    else
      var f := FirstRejected(p, r, OPTIONAL_FIELDS);
      if f.Some? then Some([f.value])
      else if STREAM in p && !r.mentionsStreamOptions && r.rejectsStreaming then Some([STREAM_OPTIONS, STREAM])
      else None
  }

  predicate RejectsOff(p: Payload, r: Reply) {
    Rejection(r) && ((Contains(p, "thinking") && "thinking" in r.rejects)
                     || (Contains(p, "thinkingConfig") && "thinkingConfig" in r.rejects))
  }

  /** Every fallback drops a droppable field that is there and, with the off setting accepted, no off flag. */
  lemma FallbackDrops(p: Payload, r: Reply)
    requires Fallback(p, r).Some?
    ensures forall x :: x in Fallback(p, r).value ==> x in DROPPABLE
    ensures exists f :: f in Fallback(p, r).value && f in DROPPABLE && Contains(p, f)
    ensures !RejectsOff(p, r) ==> forall x :: x in Fallback(p, r).value ==> x !in OFF_FLAGS
  {
    Names();
    var fs := Fallback(p, r).value;
    assert fs[|fs| - 1] in fs;
    assert forall x :: x in fs ==> x in OPTIONAL_FIELDS || x == STREAM_OPTIONS || x == STREAM;
  }

  lemma FallbackProgress(p: Payload, r: Reply)
    requires Fallback(p, r).Some?
    ensures var q := DropAll(p, Fallback(p, r).value);
            && Count(q, FIELDS) < Count(p, FIELDS) && Core(q) == Core(p)
            && (!RejectsOff(p, r) ==> OffFlags(q) == OffFlags(p))
  {
    FallbackDrops(p, r);
    var fs := Fallback(p, r).value;
    var f :| f in fs && f in DROPPABLE && Contains(p, f);
    DropAllOk(p, fs, f);
  }

  predicate AsksForUsage(p: Payload, r: Reply) {
    STREAM_OPTIONS in p && ("stream_options" in r.rejects || "include_usage" in r.rejects)
  }

  predicate RejectsStream(p: Payload, r: Reply) {
    STREAM in p && !r.mentionsStreamOptions && r.rejectsStreaming
  }

  /** There is a fallback exactly if the answer is 400 or 422 and rejects the usage request, an optional field that is
      there, or streaming. It drops the usage request, or one rejected optional field, or, if neither is rejected,
      streaming with its options. */
  lemma FallbackExactly(p: Payload, r: Reply)
    ensures var rejected := exists f :: f in OPTIONAL_FIELDS && Contains(p, f) && f in r.rejects;
            && (Fallback(p, r).Some? <==>
                  (r.status == 400 || r.status == 422) && (AsksForUsage(p, r) || rejected || RejectsStream(p, r)))
            && (Fallback(p, r).Some? ==>
                  var fs := Fallback(p, r).value;
                  if AsksForUsage(p, r) then fs == ["stream_options"]
                  else if rejected then |fs| == 1 && fs[0] in OPTIONAL_FIELDS && Contains(p, fs[0]) && fs[0] in r.rejects
                  else fs == ["stream_options", "stream"])
  {
    var f := FirstRejected(p, r, OPTIONAL_FIELDS);
    if f.Some? { assert f.value in OPTIONAL_FIELDS; }
  }

  datatype Outcome = Accepted(reply: Reply) | ThinkingOffUnsupported | ThinkingOffIgnored

  /** Every payload that was sent keeps the required fields, and with thinking off the flags that say so. */
  ghost predicate AllKept(first: Payload, sent: seq<Payload>, thinking: bool) {
    forall k :: 0 <= k < |sent| ==> Core(sent[k]) == Core(first) && (!thinking ==> OffFlags(sent[k]) == OffFlags(first))
  }

  /** Each retry has gone without the fields that the answer before it called for. */
  ghost predicate AllRetried(sent: seq<Payload>, server: nat -> Reply) {
    forall k :: 0 <= k < |sent| - 1 ==>
      Fallback(sent[k], server(k)).Some? && sent[k + 1] == DropAll(sent[k], Fallback(sent[k], server(k)).value)
  }

  ghost predicate DroppedIn(sent: seq<Payload>, server: nat -> Reply, f: string) {
    exists k :: 0 <= k < |sent| - 1 && Fallback(sent[k], server(k)).Some? && f in Fallback(sent[k], server(k)).value
  }

  lemma RetriedMore(sent: seq<Payload>, server: nat -> Reply, next: Payload)
    requires sent != [] && AllRetried(sent, server)
    requires var last := |sent| - 1;
             Fallback(sent[last], server(last)).Some? && next == DropAll(sent[last], Fallback(sent[last], server(last)).value)
    ensures AllRetried(sent + [next], server)
  {
    var more := sent + [next];
    forall k | 0 <= k < |more| - 1
      ensures Fallback(more[k], server(k)).Some? && more[k + 1] == DropAll(more[k], Fallback(more[k], server(k)).value)
    {
      assert more[k] == sent[k];
    }
  }

  lemma DroppedMore(sent: seq<Payload>, server: nat -> Reply, next: Payload, f: string)
    requires sent != [] && Fallback(sent[|sent| - 1], server(|sent| - 1)).Some?
    ensures DroppedIn(sent + [next], server, f) <==>
              DroppedIn(sent, server, f) || f in Fallback(sent[|sent| - 1], server(|sent| - 1)).value
  {
    var more, last := sent + [next], |sent| - 1;
    if DroppedIn(sent, server, f) {
      var k :| 0 <= k < last && Fallback(sent[k], server(k)).Some? && f in Fallback(sent[k], server(k)).value;
      assert more[k] == sent[k];
    }
    assert more[last] == sent[last];
    if DroppedIn(more, server, f) {
      var k :| 0 <= k < |more| - 1 && Fallback(more[k], server(k)).Some? && f in Fallback(more[k], server(k)).value;
      assert more[k] == sent[k];
    }
  }

  /** `_apply_payload_compatibility_fallbacks`, for any provider: `server(k)` is its answer to the k-th
      request, the first of which was sent before. `sent` lists the payloads, `learned` the rejected fields
      that are remembered. */
  method ApplyFallbacks(payload: Payload, server: nat -> Reply, thinking: bool)
    returns (outcome: Outcome, last: Payload, retries: nat, learned: set<string>, ghost sent: seq<Payload>)
    ensures retries <= Count(payload, FIELDS) <= 13
    ensures |sent| == retries + 1 && sent[0] == payload && sent[retries] == last
    ensures AllKept(payload, sent, thinking) && AllRetried(sent, server)
    ensures outcome.Accepted? ==> outcome.reply == server(retries) && Fallback(last, server(retries)).None?
    ensures outcome.ThinkingOffUnsupported? <==> !thinking && RejectsOff(last, server(retries))
    ensures outcome.ThinkingOffIgnored? <==> !thinking && server(retries).status < 400 && server(retries).thinks
    ensures forall f :: f in learned <==>
                          outcome.Accepted? && outcome.reply.status < 400 && DroppedIn(sent, server, f)
  {
    last, retries, learned, sent := payload, 0, {}, [payload];
    var rejected: set<string> := {};
    while true
      invariant retries + Count(last, FIELDS) <= Count(payload, FIELDS)
      invariant |sent| == retries + 1 && sent[0] == payload && sent[retries] == last
      invariant AllKept(payload, sent, thinking) && AllRetried(sent, server) && learned == {}
      invariant forall f :: f in rejected <==> DroppedIn(sent, server, f)
      decreases Count(last, FIELDS)
    {
      var reply := server(retries);
      if !thinking {
        if RejectsOff(last, reply) { outcome := ThinkingOffUnsupported; return; }
        if reply.status < 400 && reply.thinks { outcome := ThinkingOffIgnored; return; }
      }
      var fallback := Fallback(last, reply);
      if fallback.None? {
        if reply.status < 400 { learned := rejected; }
        outcome := Accepted(reply);
        return;
      }
      FallbackProgress(last, reply);
      rejected := rejected + (set f | f in fallback.value);
      for i := 0 to |fallback.value|
        invariant DropAll(last, fallback.value[i..]) == DropAll(sent[retries], fallback.value)
      {
        assert fallback.value[i..][1..] == fallback.value[i + 1..];
        last := Drop(last, fallback.value[i]);
      }
      RetriedMore(sent, server, last);
      forall f ensures DroppedIn(sent + [last], server, f) <==> f in rejected { DroppedMore(sent, server, last, f); }
      sent := sent + [last];
      retries := retries + 1;
    }
  }

  /** `_drop_cached_unsupported_fields`: the fields that are known to be rejected with the value they have are left out
      from the start, and no others, but never the flags that turn thinking off. */
  method DropCachedFields(payload: Payload, cached: (string, Value) -> bool, thinking: bool) returns (last: Payload)
    ensures AllKept(payload, [last], thinking)
    ensures forall k :: 0 <= k < |FIELDS| ==>
              if (thinking || FIELDS[k] !in OFF_FLAGS) && cached(FIELDS[k], FieldValue(payload, FIELDS[k]))
              then !Contains(last, FIELDS[k]) else SameField(payload, last, FIELDS[k])
  {
    last := payload;
    for i := 0 to |FIELDS|
      invariant AllKept(payload, [last], thinking)
      invariant AllSettled(payload, cached, thinking, last, i)
    {
      var name := FIELDS[i];
      if (thinking || name !in OFF_FLAGS) && cached(name, FieldValue(last, name)) {
        DroppedNext(payload, cached, thinking, last, i);
        DroppedKept(payload, last, name, thinking);
        last := Drop(last, name);
      }
    }
  }

  predicate ToDrop(payload: Payload, cached: (string, Value) -> bool, thinking: bool, f: string) {
    (thinking || f !in OFF_FLAGS) && cached(f, FieldValue(payload, f))
  }

  /** The first `i` fields have been dealt with, the others are as they were. */
  ghost predicate AllSettled(payload: Payload, cached: (string, Value) -> bool, thinking: bool, last: Payload, i: nat) {
    forall k :: 0 <= k < |FIELDS| ==>
      if k < i && ToDrop(payload, cached, thinking, FIELDS[k]) then !Contains(last, FIELDS[k])
      else SameField(payload, last, FIELDS[k])
  }

  lemma FieldsApart(i: nat, k: nat)
    requires i < |FIELDS| && k < |FIELDS| && i != k
    ensures FIELDS[i] != FIELDS[k]
  {
  }

  lemma DroppedNext(payload: Payload, cached: (string, Value) -> bool, thinking: bool, last: Payload, i: nat)
    requires i < |FIELDS| && AllSettled(payload, cached, thinking, last, i) && ToDrop(payload, cached, thinking, FIELDS[i])
    ensures AllSettled(payload, cached, thinking, Drop(last, FIELDS[i]), i + 1)
  {
    forall k | 0 <= k < |FIELDS|
      ensures if k < i + 1 && ToDrop(payload, cached, thinking, FIELDS[k]) then !Contains(Drop(last, FIELDS[i]), FIELDS[k])
              else SameField(payload, Drop(last, FIELDS[i]), FIELDS[k])
    {
      assert FIELDS[i] in DROPPABLE && FIELDS[k] in DROPPABLE;
      if k == i {
        DropRemoves(last, FIELDS[i], FIELDS[i]);
      } else {
        FieldsApart(i, k);
        DropTakesOnly(last, FIELDS[i], FIELDS[k]);
      }
    }
  }

  lemma DroppedKept(payload: Payload, last: Payload, f: string, thinking: bool)
    requires AllKept(payload, [last], thinking) && f in DROPPABLE && (thinking || f !in OFF_FLAGS)
    ensures AllKept(payload, [Drop(last, f)], thinking)
  {
    assert [last][0] == last;
    DropKeepsCore(last, f);
    if !thinking { DropKeepsOffFlags(last, f); }
  }
}
