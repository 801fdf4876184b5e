/**
 The distributed replay store (src/redis_replay.rs) as a step system: any number of server
 instances, each with its bounded job queue and eight workers, one shared Redis, callers with
 deadlines.  Commands may be applied late, after the worker gave up on them, or never; replies
 may be lost.

 Redis keeps the order in which commands took effect in `log`.  `LogCorrect` is the meaning of
 the store: a mark is New exactly when no earlier New mark of the same jti is still within its
 TTL.  Every answer that is not an error is proved to be the logged one.
 */
module RedisReplay {
  import opened Text

  type CallId = nat
  type Instance = nat

  datatype Reply = New | Replay | Exists(present: bool) | Failure
  datatype Op = Mark(jti: string, ttlNanos: nat) | Contains(jti: string)

  const QUEUE_CAPACITY: nat := 1024
  const WORKERS: nat := 8
  const U64_MAX: nat := 0xffff_ffff_ffff_ffff
  const I64_MAX: nat := 0x7fff_ffff_ffff_ffff

  /** Whole milliseconds, at least one, saturated. */
  function TtlMillis(ttlNanos: nat): (ms: nat)
    ensures ms >= 1
    ensures ttlNanos / 1_000_000 <= U64_MAX ==> ms * 1_000_000 > ttlNanos - 1_000_000
  {
    var ms := ttlNanos / 1_000_000;
    if ms == 0 then 1 else if ms <= U64_MAX then ms else U64_MAX
  }

  /** TTLs that survive the conversion: a whole number of milliseconds that fits, or at most one. */
  predicate Kept(ttlNanos: nat) {
    ttlNanos <= 1_000_000 || (ttlNanos % 1_000_000 == 0 && ttlNanos / 1_000_000 <= U64_MAX)
  }

  /** The conversion shortens exactly the others. */
  lemma TtlIsKept(ttlNanos: nat)
    ensures TtlMillis(ttlNanos) * 1_000_000 >= ttlNanos <==> Kept(ttlNanos)
  {
  }

  /** A command that took effect in Redis, with the answer Redis gave. */
  datatype Entry = Entry(call: CallId, op: Op, at: nat, reply: Reply)

  datatype Channel = Pending | Answered(reply: Reply) | Dropped

  /** A call of `mark` or `contains`; `outcome` is what it returned. */
  datatype Call = Call(op: Op, instance: Instance, invoked: nat, deadline: nat, channel: Channel, answers: nat,
                       outcome: Option<Reply>)

  datatype Worker = Idle | Holding(call: CallId) | Waiting(call: CallId) | Finished(call: CallId, reply: Reply) | Dead

  datatype Wid = Wid(instance: Instance, n: nat)

  datatype State = State(
    now: nat,
    keys: map<string, nat>,            // Redis: jti to expiry instant
    log: seq<Entry>,
    calls: map<CallId, Call>,
    queues: map<Instance, seq<CallId>>,
    workers: map<Wid, Worker>,
    sent: set<CallId>,                 // commands ever put on the wire
    wire: set<CallId>,                 // commands on the wire, not yet applied or lost
    replies: map<CallId, nat>)         // Redis answers, by place in the log

  datatype Step =
    | Tick(ms: nat)
    | Invoke(id: CallId, instance: Instance, op: Op, wait: nat)
    | Take(w: Wid)
    | PoolError(w: Wid)
    | Send(w: Wid)
    | Apply(id: CallId)
    | Lose(id: CallId)
    | Receive(w: Wid)
    | SocketError(w: Wid)
    | Respond(w: Wid)
    | Return(id: CallId)
    | Timeout(id: CallId)
    | Disconnected(id: CallId)
    | Die(w: Wid)
    | DropQueue(instance: Instance)
    | Expire(jti: string)

  // --- The steps --------------------------------------------------------------------------------

  function AllWids(instances: set<Instance>): set<Wid> {
    set i, n | i in instances && 0 <= n < WORKERS :: Wid(i, n)
  }

  function Init(instances: set<Instance>, now: nat): State {
    State(now, map[], [], map[], map i | i in instances :: [], map w | w in AllWids(instances) :: Idle, {}, {}, map[])
  }

  predicate AllDead(s: State, i: Instance) {
    forall w :: w in s.workers && w.instance == i ==> s.workers[w] == Dead
  }

  predicate Busy(w: Worker) { w.Holding? || w.Waiting? || w.Finished? }

  predicate SameJob(a: Worker, b: Worker) { Busy(a) && Busy(b) && a.call == b.call }

  predicate Live(s: State, jti: string) { jti in s.keys && s.now < s.keys[jti] }

  predicate Enabled(s: State, step: Step) {
    match step
    case Tick(_) => true
    case Invoke(id, i, _, _) => id !in s.calls && i in s.queues
    case Take(w) => w in s.workers && s.workers[w] == Idle && w.instance in s.queues && s.queues[w.instance] != []
    case PoolError(w) => w in s.workers && s.workers[w].Holding?
    case Send(w) => w in s.workers && s.workers[w].Holding?
    case Apply(id) => id in s.wire && id in s.calls && Takes(s.now, s.calls[id].op)
    case Lose(id) => id in s.wire
    case Receive(w) => w in s.workers && s.workers[w].Waiting? && s.workers[w].call in s.replies
                       && s.replies[s.workers[w].call] < |s.log|
    case SocketError(w) => w in s.workers && s.workers[w].Waiting?
    case Respond(w) => w in s.workers && s.workers[w].Finished? && s.workers[w].call in s.calls
    case Return(id) => id in s.calls && s.calls[id].outcome.None? && s.calls[id].channel.Answered?
    case Timeout(id) =>
      && id in s.calls && s.calls[id].outcome.None? && s.calls[id].channel.Pending?
      && s.now >= s.calls[id].deadline
    case Disconnected(id) => id in s.calls && s.calls[id].outcome.None? && s.calls[id].channel.Dropped?
    case Die(w) => w in s.workers && s.workers[w] != Dead && (Busy(s.workers[w]) ==> s.workers[w].call in s.calls)
    case DropQueue(i) => i in s.queues && AllDead(s, i) && forall c :: c in s.queues[i] ==> c in s.calls
    case Expire(jti) => jti in s.keys && s.keys[jti] <= s.now
  }

  /** Redis refuses an expiry beyond the signed 64-bit range; a refused command never takes effect. */
  predicate Takes(now: nat, op: Op) { op.Mark? ==> now + TtlMillis(op.ttlNanos) <= I64_MAX }

  function Record(s: State, id: CallId, call: Call): State { s.(calls := s.calls[id := call]) }

  function Enqueue(s: State, id: CallId, call: Call): State
    requires call.instance in s.queues
  {
    s.(calls := s.calls[id := call], queues := s.queues[call.instance := s.queues[call.instance] + [id]])
  }

  /** Calling `mark` or `contains`: the zero TTL shortcut, the full or orphaned queue, or a queued job. */
  function DoInvoke(s: State, id: CallId, i: Instance, op: Op, wait: nat): State
    requires i in s.queues
  {
    if Shortcut(op) then Record(s, id, Call(op, i, s.now, s.now, Dropped, 0, Some(New)))
    else if |s.queues[i]| >= QUEUE_CAPACITY || AllDead(s, i) then
      Record(s, id, Call(op, i, s.now, s.now, Dropped, 0, Some(Failure)))
    else Enqueue(s, id, Call(op, i, s.now, s.now + wait, Pending, 0, None))
  }

  /** What Redis answers to `SET key 1 NX PX ttl` or `EXISTS key`. */
  function Answer(s: State, op: Op): Reply {
    match op
    case Mark(jti, _) => if Live(s, jti) then Replay else New
    case Contains(jti) => Exists(Live(s, jti))
  }

  function KeysAfter(keys: map<string, nat>, e: Entry): map<string, nat> {
    if IsNew(e) then keys[e.op.jti := ExpiresAt(e)] else keys
  }

  /** A command takes effect. */
  function DoApply(s: State, id: CallId): State
    requires id in s.calls
  {
    var e := Entry(id, s.calls[id].op, s.now, Answer(s, s.calls[id].op));
    s.(keys := KeysAfter(s.keys, e), log := s.log + [e], wire := s.wire - {id}, replies := s.replies[id := |s.log|])
  }

  function DoTake(s: State, w: Wid): State
    requires w.instance in s.queues && s.queues[w.instance] != []
  {
    var q := s.queues[w.instance];
    s.(queues := s.queues[w.instance := q[1..]], workers := s.workers[w := Holding(q[0])])
  }

  function DoSend(s: State, w: Wid): State
    requires w in s.workers && s.workers[w].Holding?
  {
    var c := s.workers[w].call;
    s.(workers := s.workers[w := Waiting(c)], sent := s.sent + {c}, wire := s.wire + {c})
  }

  function DoFinish(s: State, w: Wid, reply: Reply): State
    requires w in s.workers && Busy(s.workers[w])
  {
    s.(workers := s.workers[w := Finished(s.workers[w].call, reply)])
  }

  /** The worker is done with its job: the channel gets `channel`, the worker becomes `next`. */
  function DoRelease(s: State, w: Wid, channel: Channel, next: Worker): State
    requires w in s.workers && Busy(s.workers[w]) && s.workers[w].call in s.calls
  {
    var c := s.workers[w].call;
    var call := s.calls[c];
    s.(workers := s.workers[w := next],
       calls := s.calls[c := call.(channel := channel, answers := call.answers + if channel.Answered? then 1 else 0)])
  }

  function DoOutcome(s: State, id: CallId, reply: Reply): State
    requires id in s.calls
  {
    s.(calls := s.calls[id := s.calls[id].(outcome := Some(reply))])
  }

  function DoDrop(s: State, i: Instance): State
    requires i in s.queues
  {
    s.(queues := s.queues[i := []],
       calls := map c | c in s.calls :: if c in s.queues[i] then s.calls[c].(channel := Dropped) else s.calls[c])
  }

  function Do(s: State, step: Step): State
    requires Enabled(s, step)
  {
    match step
    case Tick(ms) => s.(now := s.now + ms)
    case Invoke(id, i, op, wait) => DoInvoke(s, id, i, op, wait)
    case Take(w) => DoTake(s, w)
    case PoolError(w) => DoFinish(s, w, Failure)
    case Send(w) => DoSend(s, w)
    case Apply(id) => DoApply(s, id)
    case Lose(id) => s.(wire := s.wire - {id})
    case Receive(w) => DoFinish(s, w, s.log[s.replies[s.workers[w].call]].reply)
    case SocketError(w) => DoFinish(s, w, Failure)
    case Respond(w) => DoRelease(s, w, Answered(s.workers[w].reply), Idle)
    case Return(id) => DoOutcome(s, id, s.calls[id].channel.reply)
    case Timeout(id) => DoOutcome(s, id, Failure)
    case Disconnected(id) => DoOutcome(s, id, Failure)
    case Die(w) => if Busy(s.workers[w]) then DoRelease(s, w, Dropped, Dead) else s.(workers := s.workers[w := Dead])
    case DropQueue(i) => DoDrop(s, i)
    case Expire(jti) => s.(keys := s.keys - {jti})
  }

  // --- What holds in every reachable state --------------------------------------------------------

  type Calls = map<CallId, Call>

  predicate Shortcut(op: Op) { op.Mark? && op.ttlNanos == 0 }

  /** A job nobody has answered and whose command was never sent. */
  predicate Untouched(calls: Calls, sent: set<CallId>, c: CallId, i: Instance) {
    c in calls && calls[c].instance == i && calls[c].channel == Pending && c !in sent
  }

  predicate QueueOk(q: seq<CallId>, calls: Calls, sent: set<CallId>, i: Instance) {
    && |q| <= QUEUE_CAPACITY
    && (forall a, b :: 0 <= a < b < |q| ==> q[a] != q[b])
    && (forall c :: c in q ==> Untouched(calls, sent, c, i))
  }

  /** Queues respect their bound; a queued job is waiting for its first command, once. */
  predicate QueuesOk(queues: map<Instance, seq<CallId>>, calls: Calls, sent: set<CallId>) {
    forall i :: i in queues ==> QueueOk(queues[i], calls, sent, i)
  }

  /** A worker's job is unanswered, out of its queue, and unsent while merely held. */
  predicate WorkerOk(w: Wid, state: Worker, queues: map<Instance, seq<CallId>>, calls: Calls, sent: set<CallId>) {
    && w.instance in queues
    && (Busy(state) ==>
          && state.call in calls && calls[state.call].instance == w.instance && calls[state.call].channel == Pending
          && state.call !in queues[w.instance]
          && (state.Holding? ==> state.call !in sent))
  }

  /** And no two workers have the same job. */
  predicate WorkersOk(workers: map<Wid, Worker>, queues: map<Instance, seq<CallId>>, calls: Calls, sent: set<CallId>) {
    && (forall w :: w in workers ==> WorkerOk(w, workers[w], queues, calls, sent))
    && (forall v, w :: v in workers && w in workers && SameJob(workers[v], workers[w]) ==> v == w)
  }

  predicate EntryOk(e: Entry, calls: Calls, now: nat) {
    && e.call in calls && e.op == calls[e.call].op && calls[e.call].invoked <= e.at <= now
    && Takes(e.at, e.op) && e.reply != Failure
  }

  /** A command is sent once and takes effect at most once. */
  predicate WireOk(calls: Calls, sent: set<CallId>, wire: set<CallId>, log: seq<Entry>, replies: map<CallId, nat>,
                   now: nat) {
    && wire <= sent
    && (forall c :: c in calls ==> calls[c].invoked <= now)
    && (forall c :: c in sent ==> c in calls && !Shortcut(calls[c].op))
    && (forall c :: c in replies ==> c in sent && c !in wire && replies[c] < |log| && log[replies[c]].call == c)
    && (forall k :: 0 <= k < |log| ==>
        log[k].call in replies && replies[log[k].call] == k && EntryOk(log[k], calls, now))
  }

  /** An answer that is not an error is the logged one. */
  predicate Justified(log: seq<Entry>, replies: map<CallId, nat>, c: CallId, r: Reply) {
    r == Failure || (c in replies && replies[c] < |log| && log[replies[c]].reply == r)
  }

  predicate CallOk(log: seq<Entry>, replies: map<CallId, nat>, c: CallId, call: Call) {
    && (call.channel.Answered? ==> Justified(log, replies, c, call.channel.reply))
    && call.answers == (if call.channel.Answered? then 1 else 0)
    && (Shortcut(call.op) ==> call.outcome == Some(New) && call.channel == Dropped)
    && (call.outcome.Some? && !Shortcut(call.op) ==> Justified(log, replies, c, call.outcome.value))
  }

  predicate AnswersOk(workers: map<Wid, Worker>, calls: Calls, log: seq<Entry>, replies: map<CallId, nat>) {
    && (forall w :: w in workers && workers[w].Finished? ==> Justified(log, replies, workers[w].call, workers[w].reply))
    && (forall c :: c in calls ==> CallOk(log, replies, c, calls[c]))
  }

  predicate IsNew(e: Entry) { e.reply == New && e.op.Mark? }

  function ExpiresAt(e: Entry): nat
    requires IsNew(e)
  {
    e.at + TtlMillis(e.op.ttlNanos)
  }

  predicate Covers(e: Entry, jti: string, at: nat) { IsNew(e) && e.op.jti == jti && at < ExpiresAt(e) }

  /** An earlier New mark of the jti is still within its TTL at instant `at`. */
  predicate MarkedBefore(log: seq<Entry>, k: nat, jti: string, at: nat)
    requires k <= |log|
  {
    exists j :: 0 <= j < k && Covers(log[j], jti, at)
  }

  function CorrectReply(log: seq<Entry>, k: nat, op: Op, at: nat): Reply
    requires k <= |log|
  {
    match op
    case Mark(jti, _) => if MarkedBefore(log, k, jti, at) then Replay else New
    case Contains(jti) => Exists(MarkedBefore(log, k, jti, at))
  }

  /** The sequential meaning of the store. */
  predicate LogCorrect(log: seq<Entry>) {
    && (forall j, k :: 0 <= j <= k < |log| ==> log[j].at <= log[k].at)
    && (forall k :: 0 <= k < |log| ==> log[k].reply == CorrectReply(log, k, log[k].op, log[k].at))
  }

  predicate KeyFrom(log: seq<Entry>, jti: string, expiry: nat) {
    exists k :: 0 <= k < |log| && IsNew(log[k]) && log[k].op.jti == jti && ExpiresAt(log[k]) == expiry
  }

  /** Redis holds the keys whose New mark has not expired. */
  predicate KeysOk(keys: map<string, nat>, log: seq<Entry>, now: nat) {
    && (forall k :: 0 <= k < |log| ==> log[k].at <= now)
    && (forall k :: 0 <= k < |log| && IsNew(log[k]) && now < ExpiresAt(log[k]) ==>
          log[k].op.jti in keys && keys[log[k].op.jti] == ExpiresAt(log[k]))
    && (forall jti :: jti in keys ==> KeyFrom(log, jti, keys[jti]))
  }

  predicate Inv(s: State) {
    && QueuesOk(s.queues, s.calls, s.sent)
    && WorkersOk(s.workers, s.queues, s.calls, s.sent)
    && WireOk(s.calls, s.sent, s.wire, s.log, s.replies, s.now)
    && AnswersOk(s.workers, s.calls, s.log, s.replies)
    && LogCorrect(s.log)
    && KeysOk(s.keys, s.log, s.now)
  }

  lemma InitInv(instances: set<Instance>, now: nat)
    ensures Inv(Init(instances, now))
  {
  }

  // --- Every step keeps it ----------------------------------------------------------------------------

  lemma TickKeys(keys: map<string, nat>, log: seq<Entry>, now: nat, ms: nat)
    requires KeysOk(keys, log, now)
    ensures KeysOk(keys, log, now + ms)
  {
  }

  lemma TickWire(s: State, ms: nat)
    requires WireOk(s.calls, s.sent, s.wire, s.log, s.replies, s.now)
    ensures WireOk(s.calls, s.sent, s.wire, s.log, s.replies, s.now + ms)
  {
  }

  lemma ExpireKeys(keys: map<string, nat>, log: seq<Entry>, now: nat, jti: string)
    requires KeysOk(keys, log, now) && jti in keys && keys[jti] <= now
    ensures KeysOk(keys - {jti}, log, now)
  {
  }

  lemma ExpireInv(s: State, jti: string)
    requires Inv(s) && jti in s.keys && s.keys[jti] <= s.now
    ensures Inv(s.(keys := s.keys - {jti}))
  {
    ExpireKeys(s.keys, s.log, s.now, jti);
  }

  /** Calls are only added; what they are and when they were made never changes. */
  predicate Grows(before: Calls, after: Calls) {
    forall c :: c in before ==> c in after && after[c].op == before[c].op && after[c].invoked == before[c].invoked
  }

  lemma WireGrows(s: State, calls: Calls)
    requires WireOk(s.calls, s.sent, s.wire, s.log, s.replies, s.now) && Grows(s.calls, calls)
    requires forall c :: c in calls ==> calls[c].invoked <= s.now
    ensures WireOk(calls, s.sent, s.wire, s.log, s.replies, s.now)
  {
  }

  /** The part of the calls that queues and workers depend on is the same. */
  predicate Likewise(before: Calls, after: Calls) {
    forall c :: c in before ==>
      c in after && after[c].instance == before[c].instance && after[c].channel == before[c].channel
  }

  lemma JobsLikewise(s: State, calls: Calls)
    requires QueuesOk(s.queues, s.calls, s.sent) && WorkersOk(s.workers, s.queues, s.calls, s.sent)
    requires Likewise(s.calls, calls)
    ensures QueuesOk(s.queues, calls, s.sent) && WorkersOk(s.workers, s.queues, calls, s.sent)
  {
  }

  lemma RecordAnswers(s: State, id: CallId, call: Call)
    requires AnswersOk(s.workers, s.calls, s.log, s.replies) && CallOk(s.log, s.replies, id, call)
    ensures AnswersOk(s.workers, s.calls[id := call], s.log, s.replies)
  {
  }

  lemma RejectInv(s: State, id: CallId, call: Call)
    requires Inv(s) && id !in s.calls
    requires call.invoked <= s.now && call.channel == Dropped && call.answers == 0
    requires call.outcome == Some(if Shortcut(call.op) then New else Failure)
    ensures Inv(Record(s, id, call))
  {
    JobsLikewise(s, s.calls[id := call]);
    WireGrows(s, s.calls[id := call]);
    RecordAnswers(s, id, call);
  }

  lemma EnqueueQueues(s: State, id: CallId, call: Call)
    requires QueuesOk(s.queues, s.calls, s.sent) && id !in s.calls && id !in s.sent
    requires call.instance in s.queues && |s.queues[call.instance]| < QUEUE_CAPACITY && call.channel == Pending
    ensures QueuesOk(Enqueue(s, id, call).queues, s.calls[id := call], s.sent)
  {
    var q := s.queues[call.instance];
    assert id !in q;
    assert forall c :: c in q + [id] ==> c in q || c == id;
  }

  lemma EnqueueWorkers(s: State, id: CallId, call: Call)
    requires WorkersOk(s.workers, s.queues, s.calls, s.sent) && id !in s.calls && call.instance in s.queues
    ensures WorkersOk(s.workers, Enqueue(s, id, call).queues, s.calls[id := call], s.sent)
  {
  }

  lemma EnqueueInv(s: State, id: CallId, call: Call)
    requires Inv(s) && id !in s.calls && call.instance in s.queues && |s.queues[call.instance]| < QUEUE_CAPACITY
    requires call.invoked <= s.now && call.channel == Pending && call.answers == 0
    requires call.outcome == None && !Shortcut(call.op)
    ensures Inv(Enqueue(s, id, call))
  {
    assert id !in s.sent;
    EnqueueQueues(s, id, call);
    EnqueueWorkers(s, id, call);
    WireGrows(s, s.calls[id := call]);
  }

  lemma TakeQueues(s: State, w: Wid)
    requires QueuesOk(s.queues, s.calls, s.sent) && w.instance in s.queues && s.queues[w.instance] != []
    ensures QueuesOk(DoTake(s, w).queues, s.calls, s.sent)
    ensures var q := s.queues[w.instance]; q[0] !in q[1..] && Untouched(s.calls, s.sent, q[0], w.instance)
  {
    var q := s.queues[w.instance];
    assert QueueOk(q, s.calls, s.sent, w.instance) && q == [q[0]] + q[1..];
  }

  lemma TakeWorkers(s: State, w: Wid)
    requires QueuesOk(s.queues, s.calls, s.sent) && WorkersOk(s.workers, s.queues, s.calls, s.sent)
    requires w in s.workers && s.workers[w] == Idle && w.instance in s.queues && s.queues[w.instance] != []
    ensures var s' := DoTake(s, w); WorkersOk(s'.workers, s'.queues, s.calls, s.sent)
  {
    TakeQueues(s, w);
    var q, s' := s.queues[w.instance], DoTake(s, w);
    assert q == [q[0]] + q[1..];
    forall v | v in s'.workers ensures WorkerOk(v, s'.workers[v], s'.queues, s.calls, s.sent) {
      if v != w { assert WorkerOk(v, s.workers[v], s.queues, s.calls, s.sent); }
    }
    forall v | v in s.workers && Busy(s.workers[v]) ensures s.workers[v].call != q[0] {
      assert WorkerOk(v, s.workers[v], s.queues, s.calls, s.sent);
    }
  }

  lemma TakeInv(s: State, w: Wid)
    requires Inv(s) && w in s.workers && s.workers[w] == Idle && w.instance in s.queues && s.queues[w.instance] != []
    ensures Inv(DoTake(s, w))
  {
    TakeQueues(s, w);
    TakeWorkers(s, w);
  }

  lemma SendQueues(s: State, w: Wid)
    requires QueuesOk(s.queues, s.calls, s.sent) && WorkersOk(s.workers, s.queues, s.calls, s.sent)
    requires w in s.workers && Busy(s.workers[w])
    ensures QueuesOk(s.queues, s.calls, s.sent + {s.workers[w].call})
  {
    assert WorkerOk(w, s.workers[w], s.queues, s.calls, s.sent);
    forall i | i in s.queues ensures QueueOk(s.queues[i], s.calls, s.sent + {s.workers[w].call}, i) {
      assert QueueOk(s.queues[i], s.calls, s.sent, i);
    }
  }

  lemma SendWorkers(s: State, w: Wid)
    requires WorkersOk(s.workers, s.queues, s.calls, s.sent) && w in s.workers && s.workers[w].Holding?
    ensures var s' := DoSend(s, w); WorkersOk(s'.workers, s.queues, s.calls, s'.sent)
  {
    var s' := DoSend(s, w);
    forall v | v in s'.workers ensures WorkerOk(v, s'.workers[v], s.queues, s.calls, s'.sent) {
      assert WorkerOk(v, s.workers[v], s.queues, s.calls, s.sent);
      assert SameJob(s.workers[v], s.workers[w]) ==> v == w;
    }
  }

  lemma SendWire(s: State, c: CallId)
    requires WireOk(s.calls, s.sent, s.wire, s.log, s.replies, s.now)
    requires c in s.calls && c !in s.sent && !Shortcut(s.calls[c].op)
    ensures WireOk(s.calls, s.sent + {c}, s.wire + {c}, s.log, s.replies, s.now)
  {
  }

  lemma SendInv(s: State, w: Wid)
    requires Inv(s) && w in s.workers && s.workers[w].Holding?
    ensures Inv(DoSend(s, w))
  {
    var c := s.workers[w].call;
    assert WorkerOk(w, s.workers[w], s.queues, s.calls, s.sent) && CallOk(s.log, s.replies, c, s.calls[c]);
    SendQueues(s, w);
    SendWorkers(s, w);
    SendWire(s, c);
  }

  lemma LiveIsMarked(s: State, jti: string)
    requires Inv(s)
    ensures Live(s, jti) <==> MarkedBefore(s.log, |s.log|, jti, s.now)
  {
  }

  lemma ReplyPrefix(log: seq<Entry>, e: Entry, k: nat, op: Op, at: nat)
    requires k <= |log|
    ensures CorrectReply(log + [e], k, op, at) == CorrectReply(log, k, op, at)
  {
    var more := log + [e];
    assert forall j :: 0 <= j < k ==> more[j] == log[j];
    forall jti | MarkedBefore(log, k, jti, at) ensures MarkedBefore(more, k, jti, at) {
      var j :| 0 <= j < k && Covers(log[j], jti, at);
      assert Covers(more[j], jti, at);
    }
  }

  lemma AppendCorrect(log: seq<Entry>, e: Entry)
    requires LogCorrect(log) && (forall k :: 0 <= k < |log| ==> log[k].at <= e.at)
    requires e.reply == CorrectReply(log, |log|, e.op, e.at)
    ensures LogCorrect(log + [e])
  {
    var more := log + [e];
    forall k | 0 <= k < |more| ensures more[k].reply == CorrectReply(more, k, more[k].op, more[k].at) {
      ReplyPrefix(log, e, k, more[k].op, more[k].at);
    }
  }

  lemma AppendKeys(keys: map<string, nat>, log: seq<Entry>, e: Entry, now: nat)
    requires KeysOk(keys, log, now) && e.at == now
    requires IsNew(e) ==> !MarkedBefore(log, |log|, e.op.jti, now)
    ensures KeysOk(KeysAfter(keys, e), log + [e], now)
  {
    var more := log + [e];
    forall jti, x | KeyFrom(log, jti, x) ensures KeyFrom(more, jti, x) {
      var k :| 0 <= k < |log| && IsNew(log[k]) && log[k].op.jti == jti && ExpiresAt(log[k]) == x;
      assert more[k] == log[k];
    }
    if IsNew(e) {
      assert more[|log|] == e;
      assert KeyFrom(more, e.op.jti, ExpiresAt(e));
      forall k | 0 <= k < |log| && IsNew(log[k]) && log[k].op.jti == e.op.jti ensures now >= ExpiresAt(log[k]) {
        assert !Covers(log[k], e.op.jti, now);
      }
    }
  }

  lemma AppendWire(s: State, id: CallId, e: Entry)
    requires WireOk(s.calls, s.sent, s.wire, s.log, s.replies, s.now) && id in s.wire
    requires e.call == id && e.op == s.calls[id].op && e.at == s.now && Takes(e.at, e.op) && e.reply != Failure
    ensures WireOk(s.calls, s.sent, s.wire - {id}, s.log + [e], s.replies[id := |s.log|], s.now)
  {
  }

  lemma AppendAnswers(s: State, id: CallId, e: Entry)
    requires AnswersOk(s.workers, s.calls, s.log, s.replies) && id !in s.replies
    ensures AnswersOk(s.workers, s.calls, s.log + [e], s.replies[id := |s.log|])
  {
  }

  lemma ApplyInv(s: State, id: CallId)
    requires Inv(s) && id in s.wire && Takes(s.now, s.calls[id].op)
    ensures Inv(DoApply(s, id))
  {
    var op := s.calls[id].op;
    var e := Entry(id, op, s.now, Answer(s, op));
    LiveIsMarked(s, op.jti);
    AppendCorrect(s.log, e);
    AppendKeys(s.keys, s.log, e, s.now);
    AppendWire(s, id, e);
    AppendAnswers(s, id, e);
  }

  lemma LoseInv(s: State, id: CallId)
    requires Inv(s)
    ensures Inv(s.(wire := s.wire - {id}))
  {
  }

  lemma FinishWorkers(s: State, w: Wid, reply: Reply)
    requires WorkersOk(s.workers, s.queues, s.calls, s.sent) && w in s.workers && Busy(s.workers[w])
    ensures WorkersOk(DoFinish(s, w, reply).workers, s.queues, s.calls, s.sent)
  {
    var workers := DoFinish(s, w, reply).workers;
    forall v | v in workers ensures WorkerOk(v, workers[v], s.queues, s.calls, s.sent) {
      assert WorkerOk(v, s.workers[v], s.queues, s.calls, s.sent);
    }
    forall u, v | u in workers && v in workers && SameJob(workers[u], workers[v]) ensures u == v {
      assert SameJob(s.workers[u], s.workers[v]);
    }
  }

  lemma FinishInv(s: State, w: Wid, reply: Reply)
    requires Inv(s) && w in s.workers && Busy(s.workers[w]) && Justified(s.log, s.replies, s.workers[w].call, reply)
    ensures Inv(DoFinish(s, w, reply))
  {
    FinishWorkers(s, w, reply);
  }

  lemma ReleaseQueues(s: State, w: Wid, channel: Channel, next: Worker)
    requires QueuesOk(s.queues, s.calls, s.sent) && WorkersOk(s.workers, s.queues, s.calls, s.sent)
    requires w in s.workers && Busy(s.workers[w])
    ensures QueuesOk(s.queues, DoRelease(s, w, channel, next).calls, s.sent)
  {
  }

  lemma ReleaseWorkers(s: State, w: Wid, channel: Channel, next: Worker)
    requires WorkersOk(s.workers, s.queues, s.calls, s.sent) && w in s.workers && Busy(s.workers[w]) && !Busy(next)
    ensures var s' := DoRelease(s, w, channel, next); WorkersOk(s'.workers, s.queues, s'.calls, s.sent)
  {
  }

  lemma ReleaseInv(s: State, w: Wid, channel: Channel, next: Worker)
    requires Inv(s) && w in s.workers && Busy(s.workers[w]) && !Busy(next)
    requires channel == Dropped || (channel.Answered? && Justified(s.log, s.replies, s.workers[w].call, channel.reply))
    ensures Inv(DoRelease(s, w, channel, next))
  {
    ReleaseQueues(s, w, channel, next);
    ReleaseWorkers(s, w, channel, next);
    WireGrows(s, DoRelease(s, w, channel, next).calls);
  }

  lemma DieIdleInv(s: State, w: Wid)
    requires Inv(s) && w in s.workers && !Busy(s.workers[w])
    ensures Inv(s.(workers := s.workers[w := Dead]))
  {
  }

  lemma OutcomeLikewise(s: State, id: CallId, reply: Reply)
    requires id in s.calls && s.calls[id].outcome.None?
    ensures var calls := DoOutcome(s, id, reply).calls;
            Likewise(s.calls, calls) && Grows(s.calls, calls)
  {
  }

  lemma OutcomeInv(s: State, id: CallId, reply: Reply)
    requires Inv(s) && id in s.calls && s.calls[id].outcome.None? && Justified(s.log, s.replies, id, reply)
    ensures Inv(DoOutcome(s, id, reply))
  {
    var calls := DoOutcome(s, id, reply).calls;
    OutcomeLikewise(s, id, reply);
    JobsLikewise(s, calls);
    WireGrows(s, calls);
    assert CallOk(s.log, s.replies, id, s.calls[id]);
    RecordAnswers(s, id, calls[id]);
  }

  lemma DropQueues(s: State, i: Instance)
    requires QueuesOk(s.queues, s.calls, s.sent) && i in s.queues
    ensures QueuesOk(DoDrop(s, i).queues, DoDrop(s, i).calls, s.sent)
  {
  }

  lemma DropWorkers(s: State, i: Instance)
    requires QueuesOk(s.queues, s.calls, s.sent) && WorkersOk(s.workers, s.queues, s.calls, s.sent)
    requires i in s.queues && AllDead(s, i)
    ensures WorkersOk(s.workers, DoDrop(s, i).queues, DoDrop(s, i).calls, s.sent)
  {
  }

  lemma DropAnswers(s: State, i: Instance)
    requires QueuesOk(s.queues, s.calls, s.sent) && AnswersOk(s.workers, s.calls, s.log, s.replies) && i in s.queues
    ensures AnswersOk(s.workers, DoDrop(s, i).calls, s.log, s.replies)
  {
  }

  lemma DropInv(s: State, i: Instance)
    requires Inv(s) && i in s.queues && AllDead(s, i)
    ensures Inv(DoDrop(s, i))
  {
    DropQueues(s, i);
    DropWorkers(s, i);
    DropAnswers(s, i);
    WireGrows(s, DoDrop(s, i).calls);
  }

  predicate Accepts(s: State, i: Instance, op: Op) {
    !Shortcut(op) && i in s.queues && |s.queues[i]| < QUEUE_CAPACITY && !AllDead(s, i)
  }

  lemma InvokeRejectedInv(s: State, id: CallId, i: Instance, op: Op, wait: nat)
    requires Inv(s) && id !in s.calls && i in s.queues && !Accepts(s, i, op)
    ensures Inv(DoInvoke(s, id, i, op, wait))
  {
    RejectInv(s, id, DoInvoke(s, id, i, op, wait).calls[id]);
  }

  lemma InvokeQueuedInv(s: State, id: CallId, i: Instance, op: Op, wait: nat)
    requires Inv(s) && id !in s.calls && Accepts(s, i, op)
    ensures Inv(DoInvoke(s, id, i, op, wait))
  {
    EnqueueInv(s, id, DoInvoke(s, id, i, op, wait).calls[id]);
  }

  lemma TakeStep(s: State, step: Step)
    requires Inv(s) && Enabled(s, step) && step.Take?
    ensures Inv(Do(s, step))
  {
    TakeInv(s, step.w);
  }

  lemma SendStep(s: State, step: Step)
    requires Inv(s) && Enabled(s, step) && step.Send?
    ensures Inv(Do(s, step))
  {
    SendInv(s, step.w);
  }

  lemma GiveUpStep(s: State, step: Step)
    requires Inv(s) && Enabled(s, step) && (step.PoolError? || step.SocketError?)
    ensures Inv(Do(s, step))
  {
    FinishInv(s, step.w, Failure);
  }

  lemma ReceiveStep(s: State, step: Step)
    requires Inv(s) && Enabled(s, step) && step.Receive?
    ensures Inv(Do(s, step))
  {
    FinishInv(s, step.w, s.log[s.replies[s.workers[step.w].call]].reply);
  }

  lemma RespondStep(s: State, step: Step)
    requires Inv(s) && Enabled(s, step) && step.Respond?
    ensures Inv(Do(s, step))
  {
    ReleaseInv(s, step.w, Answered(s.workers[step.w].reply), Idle);
  }

  lemma DieStep(s: State, step: Step)
    requires Inv(s) && Enabled(s, step) && step.Die?
    ensures Inv(Do(s, step))
  {
    if Busy(s.workers[step.w]) { ReleaseInv(s, step.w, Dropped, Dead); } else { DieIdleInv(s, step.w); }
  }

  lemma InvokeStep(s: State, step: Step)
    requires Inv(s) && Enabled(s, step) && step.Invoke?
    ensures Inv(Do(s, step))
  {
    if Accepts(s, step.instance, step.op) {
      InvokeQueuedInv(s, step.id, step.instance, step.op, step.wait);
    } else {
      InvokeRejectedInv(s, step.id, step.instance, step.op, step.wait);
    }
  }

  /** A caller returns. */
  lemma ReturnStep(s: State, step: Step)
    requires Inv(s) && Enabled(s, step) && (step.Return? || step.Timeout? || step.Disconnected?)
    ensures Inv(Do(s, step))
  {
    assert CallOk(s.log, s.replies, step.id, s.calls[step.id]);
    OutcomeInv(s, step.id, if step.Return? then s.calls[step.id].channel.reply else Failure);
  }

  lemma TickStep(s: State, step: Step)
    requires Inv(s) && step.Tick?
    ensures Inv(Do(s, step))
  {
    TickKeys(s.keys, s.log, s.now, step.ms);
    TickWire(s, step.ms);
  }

  lemma ExpireStep(s: State, step: Step)
    requires Inv(s) && Enabled(s, step) && step.Expire?
    ensures Inv(Do(s, step))
  {
    ExpireInv(s, step.jti);
  }

  lemma LoseStep(s: State, step: Step)
    requires Inv(s) && Enabled(s, step) && step.Lose?
    ensures Inv(Do(s, step))
  {
    LoseInv(s, step.id);
  }

  lemma ApplyStep(s: State, step: Step)
    requires Inv(s) && Enabled(s, step) && step.Apply?
    ensures Inv(Do(s, step))
  {
    ApplyInv(s, step.id);
  }

  lemma DropStep(s: State, step: Step)
    requires Inv(s) && Enabled(s, step) && step.DropQueue?
    ensures Inv(Do(s, step))
  {
    DropInv(s, step.instance);
  }

  predicate OfWorker(step: Step) {
    step.Take? || step.PoolError? || step.Send? || step.Receive? || step.SocketError? || step.Respond? || step.Die?
  }

  lemma WorkerStep(s: State, step: Step)
    requires Inv(s) && Enabled(s, step) && OfWorker(step)
    ensures Inv(Do(s, step))
  {
    match step
    case Take(_) => TakeStep(s, step);
    case PoolError(_) => GiveUpStep(s, step);
    case Send(_) => SendStep(s, step);
    case Receive(_) => ReceiveStep(s, step);
    case SocketError(_) => GiveUpStep(s, step);
    case Respond(_) => RespondStep(s, step);
    case Die(_) => DieStep(s, step);
  }

  lemma OtherStep(s: State, step: Step)
    requires Inv(s) && Enabled(s, step) && !OfWorker(step)
    ensures Inv(Do(s, step))
  {
    match step
    case Tick(_) => TickStep(s, step);
    case Invoke(_, _, _, _) => InvokeStep(s, step);
    case Apply(_) => ApplyStep(s, step);
    case Lose(_) => LoseStep(s, step);
    case Return(_) => ReturnStep(s, step);
    case Timeout(_) => ReturnStep(s, step);
    case Disconnected(_) => ReturnStep(s, step);
    case DropQueue(_) => DropStep(s, step);
    case Expire(_) => ExpireStep(s, step);
  }

  /** Every step keeps the invariant. */
  lemma StepInv(s: State, step: Step)
    requires Inv(s) && Enabled(s, step)
    ensures Inv(Do(s, step))
  {
    if OfWorker(step) { WorkerStep(s, step); } else { OtherStep(s, step); }
  }

  // --- Whole runs -----------------------------------------------------------------------------------

  datatype Run = Run(instances: set<Instance>, start: nat, steps: seq<Step>, states: seq<State>)

  predicate ValidRun(r: Run) {
    && |r.states| == |r.steps| + 1
    && r.states[0] == Init(r.instances, r.start)
    && (forall k :: 0 <= k < |r.steps| ==>
        Enabled(r.states[k], r.steps[k]) && r.states[k + 1] == Do(r.states[k], r.steps[k]))
  }

  lemma {:induction false} Reachable(r: Run, k: nat)
    requires ValidRun(r) && k < |r.states|
    ensures Inv(r.states[k])
  {
    if k == 0 {
      InitInv(r.instances, r.start);
    } else {
      Reachable(r, k - 1);
      StepInv(r.states[k - 1], r.steps[k - 1]);
    }
  }

  /** In every interleaving, each answer that is not an error is the one the store's sequential
      meaning gives at an instant between the call and its return. */
  lemma AnswersAreCorrect(r: Run, k: nat, c: CallId)
    requires ValidRun(r) && k < |r.states| && c in r.states[k].calls
    requires var call := r.states[k].calls[c]; call.outcome.Some? && call.outcome.value != Failure && !Shortcut(call.op)
    ensures var s := r.states[k];
            && LogCorrect(s.log)
            && exists i :: 0 <= i < |s.log| && s.log[i].call == c && s.log[i].op == s.calls[c].op
                           && s.calls[c].invoked <= s.log[i].at <= s.now && s.log[i].reply == s.calls[c].outcome.value
                           && s.log[i].reply == CorrectReply(s.log, i, s.log[i].op, s.log[i].at)
  {
    Reachable(r, k);
    var s := r.states[k];
    assert CallOk(s.log, s.replies, c, s.calls[c]);
    var i := s.replies[c];
    assert EntryOk(s.log[i], s.calls, s.now);
  }

  predicate NewMark(s: State, c: CallId) {
    c in s.calls && s.calls[c].op.Mark? && !Shortcut(s.calls[c].op) && s.calls[c].outcome == Some(New)
  }

  /** Two calls that were told New for one jti: the instants their SETs took effect are at least the
      first one's TTL apart. */
  lemma NewMarksAreApart(r: Run, k: nat, i: nat, j: nat)
    requires ValidRun(r) && k < |r.states| && i < j < |r.states[k].log|
    requires NewMark(r.states[k], r.states[k].log[i].call) && NewMark(r.states[k], r.states[k].log[j].call)
    requires r.states[k].log[i].op.jti == r.states[k].log[j].op.jti
    ensures r.states[k].log[i].op.Mark?
    ensures r.states[k].log[j].at >= r.states[k].log[i].at + TtlMillis(r.states[k].log[i].op.ttlNanos)
  {
    Reachable(r, k);
    var s := r.states[k];
    LoggedNew(s, i);
    LoggedNew(s, j);
    LaterNewIsApart(s.log, i, j);
  }

  /** In the TTL that was asked for: it holds for every TTL that survives the conversion. */
  lemma NewMarksAreApartAsAsked(r: Run, k: nat, i: nat, j: nat)
    requires ValidRun(r) && k < |r.states| && i < j < |r.states[k].log|
    requires NewMark(r.states[k], r.states[k].log[i].call) && NewMark(r.states[k], r.states[k].log[j].call)
    requires r.states[k].log[i].op.jti == r.states[k].log[j].op.jti
    requires r.states[k].log[i].op.Mark? && Kept(r.states[k].log[i].op.ttlNanos)
    ensures (r.states[k].log[j].at - r.states[k].log[i].at) * 1_000_000 >= r.states[k].log[i].op.ttlNanos
  {
    NewMarksAreApart(r, k, i, j);
    TtlIsKept(r.states[k].log[i].op.ttlNanos);
  }

  /** Two New marks of one jti with the same TTL both fit the range of Redis's clock. */
  lemma NewMarksFit(r: Run, k: nat, i: nat, j: nat)
    requires ValidRun(r) && k < |r.states| && i < j < |r.states[k].log|
    requires NewMark(r.states[k], r.states[k].log[i].call) && NewMark(r.states[k], r.states[k].log[j].call)
    requires r.states[k].log[i].op == r.states[k].log[j].op
    ensures r.states[k].log[i].op.Mark? && 2 * TtlMillis(r.states[k].log[i].op.ttlNanos) <= I64_MAX
  {
    NewMarksAreApart(r, k, i, j);
    Reachable(r, k);
    assert EntryOk(r.states[k].log[j], r.states[k].calls, r.states[k].now);
  }

  lemma LoggedNew(s: State, i: nat)
    requires Inv(s) && i < |s.log| && NewMark(s, s.log[i].call)
    ensures IsNew(s.log[i])
  {
  }

  lemma LaterNewIsApart(log: seq<Entry>, i: nat, j: nat)
    requires LogCorrect(log) && i < j < |log| && IsNew(log[i]) && IsNew(log[j]) && log[i].op.jti == log[j].op.jti
    ensures log[j].at >= ExpiresAt(log[i])
  {
  }

  predicate SameOutcome(before: Calls, after: Calls, c: CallId) {
    c in before && c in after && after[c].outcome == before[c].outcome
  }

  lemma OutcomeStays(s: State, step: Step, c: CallId)
    requires Enabled(s, step) && c in s.calls && s.calls[c].outcome.Some?
    ensures SameOutcome(s.calls, Do(s, step).calls, c)
  {
    match step
    case Tick(_) =>
    case Invoke(id, i, op, wait) => assert SameOutcome(s.calls, DoInvoke(s, id, i, op, wait).calls, c);
    case Take(w) => assert DoTake(s, w).calls == s.calls;
    case PoolError(w) =>
    case Send(w) => assert DoSend(s, w).calls == s.calls;
    case Apply(id) => assert DoApply(s, id).calls == s.calls;
    case Lose(_) =>
    case Receive(w) =>
    case SocketError(w) =>
    case Respond(w) => assert SameOutcome(s.calls, DoRelease(s, w, Answered(s.workers[w].reply), Idle).calls, c);
    case Return(id) =>
    case Timeout(id) =>
    case Disconnected(id) =>
    case Die(w) =>
    case DropQueue(i) => assert SameOutcome(s.calls, DoDrop(s, i).calls, c);
    case Expire(_) =>
  }

  /** An outcome that is passed on from one to the next stays. */
  lemma {:induction false} OutcomeChain(chain: seq<Calls>, k: nat, m: nat, c: CallId)
    requires k <= m < |chain| && c in chain[k] && chain[k][c].outcome.Some?
    requires forall i :: 0 <= i < |chain| - 1 && c in chain[i] && chain[i][c].outcome.Some? ==>
               SameOutcome(chain[i], chain[i + 1], c)
    ensures c in chain[m] && chain[m][c].outcome == chain[k][c].outcome
    decreases m
  {
    if k < m {
      OutcomeChain(chain, k, m - 1, c);
      assert SameOutcome(chain[m - 1], chain[m - 1 + 1], c);
    }
  }

  lemma RunOutcomeStays(r: Run, i: nat, c: CallId)
    requires ValidRun(r) && i < |r.steps| && c in r.states[i].calls && r.states[i].calls[c].outcome.Some?
    ensures SameOutcome(r.states[i].calls, r.states[i + 1].calls, c)
  {
    OutcomeStays(r.states[i], r.steps[i], c);
  }

  /** What a call returned it returned for good: a caller that failed or timed out is never told New later. */
  lemma OutcomesAreFinal(r: Run, k: nat, m: nat, c: CallId)
    requires ValidRun(r) && k <= m < |r.states| && c in r.states[k].calls && r.states[k].calls[c].outcome.Some?
    ensures c in r.states[m].calls && r.states[m].calls[c].outcome == r.states[k].calls[c].outcome
  {
    var chain: seq<Calls> := seq(|r.states|, i requires 0 <= i < |r.states| => r.states[i].calls);
    forall i | 0 <= i < |chain| - 1 && c in chain[i] && chain[i][c].outcome.Some?
      ensures SameOutcome(chain[i], chain[i + 1], c)
    {
      RunOutcomeStays(r, i, c);
    }
    OutcomeChain(chain, k, m, c);
  }

  /** Queues stay within their bound, a job is answered at most once, and never after it was dropped. */
  lemma JobsAreAnsweredOnce(r: Run, k: nat)
    requires ValidRun(r) && k < |r.states|
    ensures forall i :: i in r.states[k].queues ==> |r.states[k].queues[i]| <= QUEUE_CAPACITY
    ensures forall c :: c in r.states[k].calls ==>
              r.states[k].calls[c].answers <= 1
                  && (r.states[k].calls[c].channel == Dropped ==> r.states[k].calls[c].answers == 0)
  {
    Reachable(r, k);
    var s := r.states[k];
    forall i | i in s.queues ensures |s.queues[i]| <= QUEUE_CAPACITY {
      assert QueueOk(s.queues[i], s.calls, s.sent, i);
    }
    forall c | c in s.calls
      ensures s.calls[c].answers <= 1 && (s.calls[c].channel == Dropped ==> s.calls[c].answers == 0)
    {
      assert CallOk(s.log, s.replies, c, s.calls[c]);
    }
  }

  predicate MarksNew(s: State, step: Step) {
    step.Apply? && step.id in s.calls && s.calls[step.id].op.Mark? && !Live(s, s.calls[step.id].op.jti)
  }

  /** Only a mark that answers New, or the expiry of a key, ever changes what Redis holds. */
  lemma ContainsChangesNothing(s: State, step: Step)
    requires Enabled(s, step) && !step.Expire? && !MarksNew(s, step)
    ensures Do(s, step).keys == s.keys
  {
    match step
    case Tick(_) =>
    case Invoke(id, i, op, wait) => assert DoInvoke(s, id, i, op, wait).keys == s.keys;
    case Take(w) => assert DoTake(s, w).keys == s.keys;
    case PoolError(w) => assert DoFinish(s, w, Failure).keys == s.keys;
    case Send(w) => assert DoSend(s, w).keys == s.keys;
    case Apply(id) => assert DoApply(s, id).keys == s.keys;
    case Lose(_) =>
    case Receive(w) =>
    case SocketError(w) => assert DoFinish(s, w, Failure).keys == s.keys;
    case Respond(w) => assert DoRelease(s, w, Answered(s.workers[w].reply), Idle).keys == s.keys;
    case Return(id) => assert DoOutcome(s, id, s.calls[id].channel.reply).keys == s.keys;
    case Timeout(id) => assert DoOutcome(s, id, Failure).keys == s.keys;
    case Disconnected(id) => assert DoOutcome(s, id, Failure).keys == s.keys;
    case Die(w) =>
    case DropQueue(i) => assert DoDrop(s, i).keys == s.keys;
  }

  // --- A TTL that does not survive the conversion -----------------------------------------------------

  lemma Extend(r: Run, step: Step) returns (r': Run)
    requires ValidRun(r) && Enabled(r.states[|r.steps|], step)
    ensures ValidRun(r') && r'.steps == r.steps + [step] && r'.states == r.states + [Do(r.states[|r.steps|], step)]
  {
    r' := Run(r.instances, r.start, r.steps + [step], r.states + [Do(r.states[|r.steps|], step)]);
  }

  function Last(r: Run): State
    requires ValidRun(r)
  {
    r.states[|r.steps|]
  }

  const W0: Wid := Wid(0, 0)

  /** One instance at rest, with a free worker. */
  predicate AtRest(s: State) { 0 in s.queues && s.queues[0] == [] && W0 in s.workers && s.workers[W0] == Idle }

  /** A mark is called, queued, taken and sent. */
  lemma SentRun(r: Run, id: CallId, op: Op) returns (r': Run)
    requires ValidRun(r) && AtRest(Last(r)) && id !in Last(r).calls && op.Mark? && !Shortcut(op)
    ensures ValidRun(r')
    ensures var s, s' := Last(r), Last(r');
            && s' == s.(calls := s.calls[id := Call(op, 0, s.now, s.now, Pending, 0, None)],
                        workers := s.workers[W0 := Waiting(id)], sent := s.sent + {id}, wire := s.wire + {id})
  {
    var s := Last(r);
    assert !AllDead(s, 0);
    r' := Extend(r, Invoke(id, 0, op, 0));
    assert Last(r').queues[0] == [id] && [id][1..] == [];
    r' := Extend(r', Take(W0));
    assert Last(r').queues == s.queues;
    r' := Extend(r', Send(W0));
    assert Last(r').workers == s.workers[W0 := Waiting(id)];
  }

  /** A mark on the wire that will be New, and the worker waiting for it. */
  predicate OnTheWire(s: State, id: CallId) {
    && id in s.calls && id in s.wire && s.calls[id].op.Mark? && !Live(s, s.calls[id].op.jti)
    && s.calls[id].channel == Pending && s.calls[id].outcome == None && Takes(s.now, s.calls[id].op)
    && 0 in s.queues && s.queues[0] == [] && W0 in s.workers && s.workers[W0] == Waiting(id)
  }

  /** Its command takes effect, and the worker hears of it. */
  lemma AppliedRun(r: Run, id: CallId) returns (r': Run)
    requires ValidRun(r) && OnTheWire(Last(r), id)
    ensures ValidRun(r')
    ensures var s, s' := Last(r), Last(r');
            && s'.now == s.now && s'.log == s.log + [Entry(id, s.calls[id].op, s.now, New)]
            && s'.keys == s.keys[s.calls[id].op.jti := s.now + TtlMillis(s.calls[id].op.ttlNanos)]
            && s'.calls == s.calls && s'.queues == s.queues && s'.workers == s.workers[W0 := Finished(id, New)]
  {
    r' := Extend(r, Apply(id));
    r' := Extend(r', Receive(W0));
    assert Last(r').workers == Last(r).workers[W0 := Finished(id, New)];
  }

  /** Redis's answer travels back to the caller. */
  lemma ReturnedRun(r: Run, id: CallId) returns (r': Run)
    requires ValidRun(r) && OnTheWire(Last(r), id)
    ensures ValidRun(r') && AtRest(Last(r'))
    ensures var s, s' := Last(r), Last(r');
            && s'.now == s.now && s'.log == s.log + [Entry(id, s.calls[id].op, s.now, New)]
            && s'.keys == s.keys[s.calls[id].op.jti := s.now + TtlMillis(s.calls[id].op.ttlNanos)]
            && s'.calls.Keys == s.calls.Keys && (forall c :: c in s.calls && c != id ==> s'.calls[c] == s.calls[c])
            && s'.calls[id].op == s.calls[id].op && s'.calls[id].outcome == Some(New)
  {
    r' := AppliedRun(r, id);
    r' := Extend(r', Respond(W0));
    r' := Extend(r', Return(id));
  }

  /** A mark of a jti that Redis does not hold, from call to return. */
  lemma MarkRun(r: Run, id: CallId, op: Op) returns (r': Run)
    requires ValidRun(r) && AtRest(Last(r)) && id !in Last(r).calls
    requires op.Mark? && !Shortcut(op) && !Live(Last(r), op.jti) && Takes(Last(r).now, op)
    ensures ValidRun(r') && AtRest(Last(r'))
    ensures var s, s' := Last(r), Last(r');
            && s'.now == s.now && s'.log == s.log + [Entry(id, op, s.now, New)]
            && s'.keys == s.keys[op.jti := s.now + TtlMillis(op.ttlNanos)]
            && s'.calls.Keys == s.calls.Keys + {id} && (forall c :: c in s.calls ==> s'.calls[c] == s.calls[c])
            && s'.calls[id].op == op && s'.calls[id].outcome == Some(New)
  {
    r' := SentRun(r, id, op);
    r' := ReturnedRun(r', id);
  }

  /** For any other TTL, if Redis takes it twice in a row, two callers are told New closer together
      than they asked. */
  lemma LostTtlShows(jti: string, ttlNanos: nat) returns (r: Run)
    requires !Kept(ttlNanos) && 2 * TtlMillis(ttlNanos) <= I64_MAX
    ensures ValidRun(r)
    ensures var s, op := Last(r), Mark(jti, ttlNanos);
            && |s.log| == 2 && s.log[0].op == s.log[1].op == op
            && s.log[0].call != s.log[1].call && NewMark(s, s.log[0].call) && NewMark(s, s.log[1].call)
            && (s.log[1].at - s.log[0].at) * 1_000_000 < ttlNanos
  {
    var op := Mark(jti, ttlNanos);
    r := Run({0}, 0, [], [Init({0}, 0)]);
    r := MarkRun(r, 0, op);
    r := Extend(r, Tick(TtlMillis(ttlNanos)));
    r := MarkRun(r, 1, op);
    TtlIsKept(ttlNanos);
  }
}
