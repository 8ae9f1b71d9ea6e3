/**
 * Deferred UTXO work: the relayer stream with redelivery and id de-duplication, workers that park work items in
 * the pending set (omni-relayer/src/workers/utxo.rs), and pollers that replay them once the light client has
 * caught up (omni-relayer/src/startup/utxo_lc_poller.rs). Any number of relayers run against one stream and one
 * pending set.
 */
module DeferralProtocol {
  import opened Wrappers
  import opened Text
  import opened AckPolicy

  /** A parked work item: the base key names it, `target` is its score, `stamp` the deferral time in milliseconds. */
  datatype Entry = Entry(item: string, target: nat, stamp: nat)

  function EntryKey(e: Entry): string {
    e.item + "@lc-" + Decimal(e.target) + "-" + Decimal(e.stamp)
  }

  /** Message ids of replays: distinct entries never share one. */
  lemma EntryKeyInjective(a: Entry, b: Entry)
    requires EntryKey(a) == EntryKey(b)
    ensures a == b
  {
    DecimalSuffixUnique(a.item + "@lc-" + Decimal(a.target) + "-", a.stamp, b.item + "@lc-" + Decimal(b.target) + "-", b.stamp);
    var p, q := a.item + "@lc-" + Decimal(a.target), b.item + "@lc-" + Decimal(b.target);
    assert p == (p + "-")[..|p|] && q == (q + "-")[..|q|];
    DecimalSuffixUnique(a.item + "@lc-", a.target, b.item + "@lc-", b.target);
    assert a.item == (a.item + "@lc-")[..|a.item|] && b.item == (b.item + "@lc-")[..|b.item|];
  }

  /** `Nats-Msg-Id`s: ids given at ingestion, and entry keys. */
  datatype MsgId = Ingested(name: string) | Replayed(entry: Entry)

  /** A stored message: its payload, and the ingestions the payload goes back to. */
  datatype Message = Message(item: string, origins: set<nat>)

  /** One delivery being worked on; `parked` once its item was added to the pending set. */
  datatype Task = Task(msg: nat, message: Message, verdict: Option<WorkerResult>, parked: bool)

  /** The pending set; each member stands for the ingestions it was parked for, since parking it twice changes nothing. */
  type Pending = map<Entry, set<nat>>

  /** One poller iteration: the tip it read, what is left to publish, and what was just published. */
  datatype Tick = Tick(tip: nat, ready: Pending, removing: Option<Entry>)

  datatype Replay = Replay(entry: Entry, tip: nat)

  /**
   * Every stored ingestion gets a number of its own, `born` being the first unused one, so that equal payloads stay
   * apart. Stream messages are numbered, too; `unacked` are those still on the stream. `dedup` are the ids the stream
   * remembers. The last three fields record the past: ids ever stored, ingestions some delivery of which was disposed
   * of for good, and replays attempted.
   */
  datatype State = State(
    born: nat, next: nat, unacked: map<nat, Message>, dedup: set<MsgId>,
    pending: Pending, tasks: map<nat, Task>, pollers: map<nat, Tick>,
    published: set<MsgId>, finished: set<nat>, replays: set<Replay>)

  /**
   * What the poller learns of a publish, and whether the stream stored the message: the client hands it over and
   * does not wait for the stream's own answer.
   */
  datatype Published = Accepted(stored: bool) | Refused(stored: bool)

  datatype Action =
    | Ingest(item: string, name: string)
    | Forget(id: MsgId)
    | Deliver(task: nat, msg: nat)
    | Defer(task: nat, target: nat, stamp: nat)
    | DeferFails(task: nat, target: nat, stamp: nat, applied: bool)
    | Return(task: nat, result: WorkerResult)
    | Settle(task: nat, expired: bool, landed: bool)
    | Crash(tasks: set<nat>, pollers: set<nat>)
    | ReadTip(poller: nat, tip: nat)
    | Publish(poller: nat, entry: Entry, outcome: Published)
    | Unpark(poller: nat, applied: bool)
    | EndTick(poller: nat)

  function Init(): State {
    State(0, 0, map[], {}, map[], map[], map[], {}, {}, {})
  }

  predicate Working(s: State, task: nat) { task in s.tasks && s.tasks[task].verdict.None? }

  predicate Enabled(s: State, a: Action) {
    match a
    case Ingest(_, _) => true
    case Forget(_) => true
    case Deliver(task, msg) => task !in s.tasks && msg in s.unacked
    case Defer(task, _, _) => Working(s, task)
    case DeferFails(task, _, _, _) => Working(s, task)
    case Return(task, _) => Working(s, task)
    case Settle(task, _, _) => task in s.tasks && s.tasks[task].verdict.Some?
    case Crash(_, _) => true
    case ReadTip(p, _) => p !in s.pollers
    case Publish(p, e, _) => p in s.pollers && s.pollers[p].removing.None? && e in s.pollers[p].ready
    case Unpark(p, _) => p in s.pollers && s.pollers[p].removing.Some?
    case EndTick(p) => p in s.pollers && s.pollers[p].ready == map[] && s.pollers[p].removing.None?
  }

  /** Storing a message, unless its id is remembered. */
  function Store(s: State, message: Message, id: MsgId): State {
    if id in s.dedup then s
    else s.(next := s.next + 1, unacked := s.unacked[s.next := message], dedup := s.dedup + {id},
            published := s.published + {id})
  }

  function Ingestion(s: State, item: string, name: string): State {
    if Ingested(name) in s.dedup then s
    else Store(s, Message(item, {s.born}), Ingested(name)).(born := s.born + 1)
  }

  function OriginsOf(pending: Pending, e: Entry): set<nat> { if e in pending then pending[e] else {} }

  function Park(s: State, task: nat, e: Entry, verdict: WorkerResult, parked: bool, applied: bool): State
    requires task in s.tasks
  {
    var t := s.tasks[task];
    s.(pending := if applied then s.pending[e := OriginsOf(s.pending, e) + t.message.origins] else s.pending,
       tasks := s.tasks[task := t.(verdict := Some(verdict), parked := parked)])
  }

  function EntryOf(s: State, a: Action): Entry
    requires (a.Defer? || a.DeferFails?) && a.task in s.tasks
  {
    Entry(s.tasks[a.task].message.item, a.target, a.stamp)
  }

  /** A delivery is answered; `left` says whether its message left the stream, by the rules of `AckPolicy.HandleNatsAck`. */
  function Dispose(s: State, task: nat, left: bool): State
    requires task in s.tasks
  {
    var t := s.tasks[task];
    var settled := s.(tasks := s.tasks - {task});
    if !left then settled
    else settled.(unacked := s.unacked - {t.msg},
                  finished := if t.parked then s.finished else s.finished + t.message.origins)
  }

  /** The payload of an entry is the same whenever it was parked. */
  function ReplayOf(s: State, p: nat, e: Entry): Message
    requires p in s.pollers
  {
    Message(e.item, OriginsOf(s.pollers[p].ready, e) + OriginsOf(s.pending, e))
  }

  function Offer(s: State, p: nat, e: Entry, outcome: Published): State
    requires p in s.pollers
  {
    var tick := s.pollers[p];
    var stored := if outcome.stored then Store(s, ReplayOf(s, p, e), Replayed(e)) else s;
    stored.(pollers := s.pollers[p := Tick(tick.tip, tick.ready - {e}, if outcome.Accepted? then Some(e) else None)],
            replays := s.replays + {Replay(e, tick.tip)})
  }

  function Ripe(pending: Pending, tip: nat): Pending { map e | e in pending && e.target <= tip :: pending[e] }

  function Step(s: State, a: Action): State
    requires Enabled(s, a)
  {
    match a
    case Ingest(item, name) => Ingestion(s, item, name)
    case Forget(id) => s.(dedup := s.dedup - {id})
    case Deliver(task, msg) => s.(tasks := s.tasks[task := Task(msg, s.unacked[msg], None, false)])
    case Defer(task, _, _) => Park(s, task, EntryOf(s, a), Ok(EventAction.Remove), true, true)
    case DeferFails(task, _, _, applied) => Park(s, task, EntryOf(s, a), Ok(Retry), false, applied)
    case Return(task, result) => s.(tasks := s.tasks[task := s.tasks[task].(verdict := Some(result))])
    case Settle(task, expired, landed) => Dispose(s, task, landed && Ends(s.tasks[task].verdict.value, expired))
    case Crash(tasks, pollers) => s.(tasks := s.tasks - tasks, pollers := s.pollers - pollers)
    case ReadTip(p, tip) => s.(pollers := s.pollers[p := Tick(tip, Ripe(s.pending, tip), None)])
    case Publish(p, e, outcome) => Offer(s, p, e, outcome)
    case Unpark(p, applied) =>
      var e := s.pollers[p].removing.value;
      s.(pending := if applied then s.pending - {e} else s.pending,
         pollers := s.pollers[p := s.pollers[p].(removing := None)])
    case EndTick(p) => s.(pollers := s.pollers - {p})
  }

  function Exec(s: State, acts: seq<Action>): Option<State>
    decreases |acts|
  {
    if acts == [] then Some(s)
    else if Enabled(s, acts[0]) then Exec(Step(s, acts[0]), acts[1..])
    else None
  }

  lemma ExecCons(s: State, a: Action, rest: seq<Action>)
    requires Enabled(s, a)
    ensures Exec(s, [a] + rest) == Exec(Step(s, a), rest)
  {
    assert ([a] + rest)[1..] == rest;
  }

  lemma {:induction false} ExecThen(s: State, acts: seq<Action>, more: seq<Action>)
    requires Exec(s, acts).Some?
    ensures Exec(s, acts + more) == Exec(Exec(s, acts).value, more)
    decreases |acts|
  {
    if acts == [] {
      assert acts + more == more;
    } else {
      var a, rest := acts[0], acts[1..];
      assert acts == [a] + rest && acts + more == [a] + (rest + more);
      ExecThen(Step(s, a), rest, more);
      ExecCons(s, a, rest);
      ExecCons(s, a, rest + more);
    }
  }

  /** The deferral clock at work: no deferral reuses an id that was already published. */
  predicate FreshStamp(s: State, a: Action) {
    (a.Defer? || (a.DeferFails? && a.applied)) && a.task in s.tasks ==> Replayed(EntryOf(s, a)) !in s.published
  }

  predicate FreshRun(s: State, acts: seq<Action>)
    decreases |acts|
  {
    acts != [] && Enabled(s, acts[0]) ==> FreshStamp(s, acts[0]) && FreshRun(Step(s, acts[0]), acts[1..])
  }

  /** The stream stores what its client accepts. */
  predicate StoresAccepted(a: Action) { a.Publish? && a.outcome.Accepted? ==> a.outcome.stored }

  predicate StoredRun(acts: seq<Action>) { forall i :: 0 <= i < |acts| ==> StoresAccepted(acts[i]) }

  // ----- Where an ingestion is -----

  predicate Streams(unacked: map<nat, Message>, m: nat, i: nat) { m in unacked && i in unacked[m].origins }

  predicate Pends(pending: Pending, e: Entry, i: nat) { e in pending && i in pending[e] }

  predicate OnStream(s: State, i: nat, after: int) { exists m | m in s.unacked :: m > after && Streams(s.unacked, m, i) }

  predicate InPending(s: State, i: nat) { exists e | e in s.pending :: Pends(s.pending, e, i) }

  predicate Alive(s: State, i: nat) { i in s.finished || OnStream(s, i, -1) || InPending(s, i) }

  /** Every stored ingestion is finished, unacked on the stream, or pending. */
  ghost predicate NoLoss(s: State) { forall i: nat | i < s.born :: Alive(s, i) }

  // ----- Numbers -----

  /** A delivery is of the message it took, as long as that is on the stream. */
  ghost predicate TaskOk(s: State, t: Task) {
    && t.msg < s.next
    && (t.msg in s.unacked ==> s.unacked[t.msg] == t.message)
    && (forall i | i in t.message.origins :: i < s.born)
  }

  /** Nothing is ready before its time. */
  predicate OnTime(tick: Tick) { forall e | e in tick.ready :: e.target <= tick.tip }

  /** Numbers in use are taken, and deliveries are of their messages. */
  ghost predicate Numbered(s: State) {
    && (forall m | m in s.unacked :: m < s.next)
    && (forall m: nat, i: nat :: Streams(s.unacked, m, i) ==> i < s.born)
    && (forall e, i: nat :: Pends(s.pending, e, i) ==> i < s.born)
    && (forall t | t in s.tasks :: TaskOk(s, s.tasks[t]))
    && (forall p: nat, e, i: nat | p in s.pollers :: Pends(s.pollers[p].ready, e, i) ==> i < s.born)
  }

  lemma StoreNumbers(s: State, message: Message, id: MsgId)
    requires Numbered(s) && forall i | i in message.origins :: i < s.born
    ensures Numbered(Store(s, message, id))
  {
    var t := Store(s, message, id);
    assert forall m, i :: Streams(t.unacked, m, i) ==> Streams(s.unacked, m, i) || i in message.origins;
    forall k | k in t.tasks ensures TaskOk(t, t.tasks[k]) { assert TaskOk(s, s.tasks[k]); }
  }

  lemma IngestNumbers(s: State, item: string, name: string)
    requires Numbered(s)
    ensures Numbered(Ingestion(s, item, name))
  {
    var u := s.(born := s.born + 1);
    assert Numbered(u) by {
      forall k | k in u.tasks ensures TaskOk(u, u.tasks[k]) { assert TaskOk(s, s.tasks[k]); }
    }
    StoreNumbers(u, Message(item, {s.born}), Ingested(name));
    assert Ingested(name) !in s.dedup ==> Ingestion(s, item, name) == Store(u, Message(item, {s.born}), Ingested(name));
  }

  lemma ParkNumbers(s: State, task: nat, e: Entry, verdict: WorkerResult, parked: bool, applied: bool)
    requires Numbered(s) && task in s.tasks
    ensures Numbered(Park(s, task, e, verdict, parked, applied))
  {
    var t := Park(s, task, e, verdict, parked, applied);
    assert TaskOk(s, s.tasks[task]);
    assert forall f, i :: Pends(t.pending, f, i) ==> Pends(s.pending, f, i) || i in s.tasks[task].message.origins;
    forall k | k in t.tasks ensures TaskOk(t, t.tasks[k]) { assert TaskOk(s, s.tasks[k]); }
  }

  lemma OfferNumbers(s: State, p: nat, e: Entry, outcome: Published)
    requires Numbered(s) && Enabled(s, Publish(p, e, outcome))
    ensures Numbered(Offer(s, p, e, outcome))
  {
    forall i | i in ReplayOf(s, p, e).origins ensures i < s.born {
      assert Pends(s.pollers[p].ready, e, i) || Pends(s.pending, e, i);
    }
    StoreNumbers(s, ReplayOf(s, p, e), Replayed(e));
    var t := Offer(s, p, e, outcome);
    var stored := if outcome.stored then Store(s, ReplayOf(s, p, e), Replayed(e)) else s;
    forall k | k in t.tasks ensures TaskOk(t, t.tasks[k]) { assert TaskOk(stored, stored.tasks[k]); }
    forall q: nat, f, i: nat | q in t.pollers && Pends(t.pollers[q].ready, f, i) ensures i < t.born {
      assert Pends(s.pollers[q].ready, f, i);
    }
  }

  lemma OtherNumbers(s: State, a: Action)
    requires Numbered(s) && Enabled(s, a)
    requires !a.Ingest? && !a.Defer? && !a.DeferFails? && !a.Publish?
    ensures Numbered(Step(s, a))
  {
    var t := Step(s, a);
    assert forall m, i :: Streams(t.unacked, m, i) ==> Streams(s.unacked, m, i);
    assert forall e, i :: Pends(t.pending, e, i) ==> Pends(s.pending, e, i);
    forall k | k in t.tasks ensures TaskOk(t, t.tasks[k]) {
      if a.Deliver? && k == a.task {
        assert forall i | i in s.unacked[a.msg].origins :: Streams(s.unacked, a.msg, i);
      } else {
        assert TaskOk(s, s.tasks[k]);
      }
    }
    forall q: nat, f, i: nat | q in t.pollers && Pends(t.pollers[q].ready, f, i) ensures i < t.born {
      assert Pends(s.pending, f, i) || Pends(s.pollers[q].ready, f, i);
    }
  }

  lemma StepNumbers(s: State, a: Action)
    requires Numbered(s) && Enabled(s, a)
    ensures Numbered(Step(s, a))
  {
    match a
    case Ingest(item, name) => IngestNumbers(s, item, name);
    case Defer(task, _, _) => ParkNumbers(s, task, EntryOf(s, a), Ok(EventAction.Remove), true, true);
    case DeferFails(task, _, _, applied) => ParkNumbers(s, task, EntryOf(s, a), Ok(Retry), false, applied);
    case Publish(p, e, outcome) => OfferNumbers(s, p, e, outcome);
    case _ => OtherNumbers(s, a);
  }

  // ----- No early replay -----

  predicate Punctual(s: State) {
    && (forall r | r in s.replays :: r.entry.target <= r.tip)
    && (forall p | p in s.pollers :: OnTime(s.pollers[p]))
  }

  lemma StepIsPunctual(s: State, a: Action)
    requires Punctual(s) && Enabled(s, a)
    ensures Punctual(Step(s, a))
  {
    var t := Step(s, a);
    if a.Publish? { assert OnTime(s.pollers[a.poller]); }
    forall p | p in t.pollers ensures OnTime(t.pollers[p]) {
      if p in s.pollers { assert OnTime(s.pollers[p]); }
    }
  }

  /** Every replay, in every run, is of an entry whose target is at or below the tip its poller had just read. */
  lemma {:induction false} NoEarlyReplay(s: State, acts: seq<Action>)
    requires Punctual(s) && Exec(s, acts).Some?
    ensures Punctual(Exec(s, acts).value)
    decreases |acts|
  {
    if acts != [] {
      StepIsPunctual(s, acts[0]);
      NoEarlyReplay(Step(s, acts[0]), acts[1..]);
    }
  }
}
