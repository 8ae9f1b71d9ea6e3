/**
 * The queue of pending EVM transactions and the loop that watches its head
 * (omni-relayer/src/startup/evm_fee_bumping.rs), with workers adding entries at any time. Redis is reliable; the
 * process may crash, and the stream may fail to store what its client accepted.
 */
module PendingQueue {
  import opened Wrappers

  datatype PendingTx = PendingTx(txHash: string, nonce: nat, sentAt: int, lastBump: Option<int>, source: string)

  function Bumped(tx: PendingTx, txHash: string, now: int): PendingTx { tx.(txHash := txHash, lastBump := Some(now)) }

  /** What an entry keeps for good: its nonce and the event it came from. */
  function Lineage(tx: PendingTx): (nat, string) { (tx.nonce, tx.source) }

  datatype FeeBumping = FeeBumping(minPendingTime: int, minSinceLastBump: int)

  predicate TooYoung(c: FeeBumping, tx: PendingTx, now: int) {
    || now - tx.sentAt < c.minPendingTime
    || (tx.lastBump.Some? && now - tx.lastBump.value < c.minSinceLastBump)
  }

  /**
   * Where the loop stands. `Replaying` is between publishing an entry's source event and removing the entry,
   * `Moving` between removing an entry and adding its bumped copy; `ids` are the additions it carries over.
   */
  datatype Pc = Idle | Looking(tx: PendingTx) | Replaying(tx: PendingTx) | Moving(tx: PendingTx, ids: set<nat>)

  /**
   * Every addition gets a number of its own, `next` being the first unused one. The queue is a set of members, as
   * Redis keeps it; each member stands for the additions it came from, since an addition of a member that is there
   * already changes nothing. The other fields record the past: what was added, and which additions were seen
   * included, or replayed by a message that the stream stored.
   */
  datatype State = State(
    next: nat, queue: map<PendingTx, set<nat>>, pc: Pc,
    origin: map<nat, (nat, string)>, included: set<nat>, replayed: set<nat>)

  /** The replay of a missing transaction: the client refused the message or accepted it, and the stream stored it or not. */
  datatype Reply = Refused | Accepted(stored: bool)

  datatype Status = Included | Missing(reply: Reply) | Pending(sent: Option<string>)

  datatype Action =
    | Add(tx: PendingTx)
    | Look(tx: PendingTx)
    | Examine(now: int, status: Option<Status>)
    | Drop
    | Readd
    | Crash

  function Init(): State { State(0, map[], Idle, map[], {}, {}) }

  /** The entry with the lowest nonce, which is the queue's score. */
  predicate IsHead(queue: map<PendingTx, set<nat>>, tx: PendingTx) {
    tx in queue && forall u | u in queue :: tx.nonce <= u.nonce
  }

  predicate Enabled(s: State, a: Action) {
    match a
    case Add(_) => true
    case Look(tx) => s.pc.Idle? && IsHead(s.queue, tx)
    case Examine(_, _) => s.pc.Looking?
    case Drop => s.pc.Replaying?
    case Readd => s.pc.Moving?
    case Crash => true
  }

  /** The additions a member stands for. */
  function IdsOf(queue: map<PendingTx, set<nat>>, tx: PendingTx): set<nat> { if tx in queue then queue[tx] else {} }

  function Insert(queue: map<PendingTx, set<nat>>, tx: PendingTx, ids: set<nat>): map<PendingTx, set<nat>> {
    queue[tx := IdsOf(queue, tx) + ids]
  }

  function Step(c: FeeBumping, s: State, a: Action): State
    requires Enabled(s, a)
  {
    match a
    case Add(tx) =>
      s.(next := s.next + 1, queue := Insert(s.queue, tx, {s.next}), origin := s.origin[s.next := Lineage(tx)])
    case Look(tx) => s.(pc := Looking(tx))
    case Examine(now, status) =>
      var tx := s.pc.tx;
      var ids := IdsOf(s.queue, tx);
      if TooYoung(c, tx, now) then s.(pc := Idle)
      else
        (match status
         case Some(Included) => s.(pc := Idle, queue := s.queue - {tx}, included := s.included + ids)
         case Some(Missing(Accepted(stored))) =>
           s.(pc := Replaying(tx), replayed := s.replayed + if stored then ids else {})
         case Some(Pending(Some(txHash))) => s.(pc := Moving(Bumped(tx, txHash, now), ids), queue := s.queue - {tx})
         case _ => s.(pc := Idle))
    case Drop => s.(pc := Idle, queue := s.queue - {s.pc.tx})
    case Readd => s.(pc := Idle, queue := Insert(s.queue, s.pc.tx, s.pc.ids))
    case Crash => s.(pc := Idle)
  }

  function Exec(c: FeeBumping, s: State, acts: seq<Action>): Option<State>
    decreases |acts|
  {
    if acts == [] then Some(s)
    else if Enabled(s, acts[0]) then Exec(c, Step(c, s, acts[0]), acts[1..])
    else None
  }

  lemma ExecCons(c: FeeBumping, s: State, a: Action, rest: seq<Action>)
    requires Enabled(s, a)
    ensures Exec(c, s, [a] + rest) == Exec(c, Step(c, s, a), rest)
  {
    assert ([a] + rest)[1..] == rest;
  }

  // ----- Where an addition is -----

  predicate Holds(queue: map<PendingTx, set<nat>>, tx: PendingTx, id: nat) { tx in queue && id in queue[tx] }

  predicate Queued(s: State, id: nat) { exists tx | tx in s.queue :: Holds(s.queue, tx, id) }

  predicate InHand(s: State, id: nat) { s.pc.Moving? && id in s.pc.ids }

  predicate Present(s: State, id: nat) { Queued(s, id) || InHand(s, id) }

  predicate Settled(s: State, id: nat) { id in s.included || id in s.replayed }

  /** Every addition is in the queue, in the loop's hand, or was itself seen included or replayed. */
  ghost predicate AllTracked(s: State) { forall id: nat | id < s.next :: Present(s, id) || Settled(s, id) }

  predicate Known(s: State, id: nat) { id < s.next && id in s.origin }

  /** Additions stand in one place at most, and keep their nonce and source event wherever they are. */
  ghost predicate WellPlaced(s: State) {
    && (forall tx, id :: Holds(s.queue, tx, id) ==> Known(s, id) && s.origin[id] == Lineage(tx))
    && (forall id :: InHand(s, id) ==> Known(s, id) && s.origin[id] == Lineage(s.pc.tx))
    && (forall tx, u, id :: Holds(s.queue, tx, id) && Holds(s.queue, u, id) ==> tx == u)
    && (forall tx, id :: Holds(s.queue, tx, id) ==> !InHand(s, id))
    && (forall id | id in s.included :: Known(s, id) && !Present(s, id))
    && (forall id | id in s.replayed :: Known(s, id))
  }

  lemma HoldsAfterInsert(queue: map<PendingTx, set<nat>>, tx: PendingTx, ids: set<nat>)
    ensures forall u, id :: Holds(Insert(queue, tx, ids), u, id) <==> Holds(queue, u, id) || (u == tx && id in ids)
  {
  }

  lemma HoldsAfterRemoval(queue: map<PendingTx, set<nat>>, tx: PendingTx)
    ensures forall u, id :: Holds(queue - {tx}, u, id) <==> Holds(queue, u, id) && u != tx
    ensures forall id :: id in IdsOf(queue, tx) <==> Holds(queue, tx, id)
  {
  }

  /** The places after a step that inserts into the queue or removes from it. */
  lemma StepPlaces(c: FeeBumping, s: State, a: Action)
    requires Enabled(s, a)
    ensures var t := Step(c, s, a);
            && (a.Add? ==> t.queue == Insert(s.queue, a.tx, {s.next}))
            && (a.Readd? ==> t.queue == Insert(s.queue, s.pc.tx, s.pc.ids))
            && (!a.Add? && !a.Readd? ==> t.queue == s.queue || (!s.pc.Idle? && t.queue == s.queue - {s.pc.tx}))
            && (t.pc.Moving? ==>
                  || t.pc == s.pc
                  || (s.pc.Looking? && t.pc.ids == IdsOf(s.queue, s.pc.tx) && Lineage(t.pc.tx) == Lineage(s.pc.tx)))
            && t.included == s.included + if a.Examine? && t.included != s.included then IdsOf(s.queue, s.pc.tx) else {}
  {
  }

  lemma AddKeepsPlaces(c: FeeBumping, s: State, tx: PendingTx)
    requires WellPlaced(s)
    ensures WellPlaced(Step(c, s, Add(tx)))
  {
    var t := Step(c, s, Add(tx));
    HoldsAfterInsert(s.queue, tx, {s.next});
    assert forall id :: InHand(t, id) <==> InHand(s, id);
    assert forall id :: Known(s, id) ==> Known(t, id) && t.origin[id] == s.origin[id];
    forall id | id in t.included ensures !Present(t, id) {
      if Present(t, id) { PresentBefore(c, s, Add(tx), id); }
    }
  }

  lemma ReaddKeepsPlaces(c: FeeBumping, s: State)
    requires WellPlaced(s) && s.pc.Moving?
    ensures WellPlaced(Step(c, s, Readd))
  {
    var t := Step(c, s, Readd);
    HoldsAfterInsert(s.queue, s.pc.tx, s.pc.ids);
    assert forall id | id in s.pc.ids :: InHand(s, id);
    forall id | id in t.included ensures !Present(t, id) {
      if Present(t, id) { PresentBefore(c, s, Readd, id); }
    }
  }

  /** Steps that take nothing into the queue, nor into the hand but what they take out of the queue. */
  lemma RemovalKeepsPlaces(s: State, t: State)
    requires WellPlaced(s) && t.next == s.next && t.origin == s.origin && !s.pc.Idle?
    requires t.queue == s.queue || t.queue == s.queue - {s.pc.tx}
    requires forall id :: InHand(t, id) ==>
               || (InHand(s, id) && t.pc.tx == s.pc.tx)
               || (Holds(s.queue, s.pc.tx, id) && t.queue != s.queue && Lineage(t.pc.tx) == Lineage(s.pc.tx))
    requires forall id | id in t.replayed :: id in s.replayed || Holds(s.queue, s.pc.tx, id)
    requires forall id | id in t.included :: id in s.included || (Holds(s.queue, s.pc.tx, id) && t.queue != s.queue && !t.pc.Moving?)
    ensures WellPlaced(t)
  {
    HoldsAfterRemoval(s.queue, s.pc.tx);
    assert forall tx, id :: Holds(t.queue, tx, id) ==> Holds(s.queue, tx, id) && (t.queue != s.queue ==> tx != s.pc.tx);
    assert forall id :: Known(t, id) <==> Known(s, id);
    forall id | id in t.included ensures Known(t, id) && !Present(t, id) {
      if id in s.included {
        assert forall tx :: !Holds(s.queue, tx, id);
      } else {
        assert Holds(s.queue, s.pc.tx, id);
      }
    }
  }

  lemma OthersKeepPlaces(c: FeeBumping, s: State, a: Action)
    requires WellPlaced(s) && Enabled(s, a) && !a.Add? && !a.Readd?
    ensures WellPlaced(Step(c, s, a))
  {
    var t := Step(c, s, a);
    if s.pc.Idle? {
      assert t.queue == s.queue && forall id :: !InHand(t, id);
    } else {
      HoldsAfterRemoval(s.queue, s.pc.tx);
      RemovalKeepsPlaces(s, t);
    }
  }

  lemma StepKeepsPlaces(c: FeeBumping, s: State, a: Action)
    requires WellPlaced(s) && Enabled(s, a)
    ensures WellPlaced(Step(c, s, a))
  {
    match a
    case Add(tx) => AddKeepsPlaces(c, s, tx);
    case Readd => ReaddKeepsPlaces(c, s);
    case _ => OthersKeepPlaces(c, s, a);
  }

  lemma PresentBefore(c: FeeBumping, s: State, a: Action, id: nat)
    requires Enabled(s, a) && id < s.next && Present(Step(c, s, a), id)
    ensures Present(s, id)
  {
    var t := Step(c, s, a);
    StepPlaces(c, s, a);
    if a.Readd? { HoldsAfterInsert(s.queue, s.pc.tx, s.pc.ids); }
    if a.Add? { HoldsAfterInsert(s.queue, a.tx, {s.next}); }
    if !s.pc.Idle? { HoldsAfterRemoval(s.queue, s.pc.tx); }
    if Queued(t, id) {
      var tx :| tx in t.queue && Holds(t.queue, tx, id);
      if !InHand(s, id) { assert Holds(s.queue, tx, id); }
    } else if !InHand(s, id) {
      assert Holds(s.queue, s.pc.tx, id);
    }
  }

  /** A crash with an entry in hand, or the removal of an entry that has an addition whose replay was not stored. */
  predicate Loses(s: State, a: Action) {
    || (a.Crash? && s.pc.Moving? && !(s.pc.ids <= s.replayed))
    || (a.Drop? && s.pc.Replaying? && !(IdsOf(s.queue, s.pc.tx) <= s.replayed))
  }

  /**
   * An addition leaves queue and hand only when it was itself seen included, or was removed after a replay of its
   * member, or by a crash while in hand; and it is settled only by what was seen of its own member.
   */
  lemma LeavesOnlyBy(c: FeeBumping, s: State, a: Action, id: nat)
    requires WellPlaced(s) && Enabled(s, a)
    ensures var t := Step(c, s, a);
            && (Present(s, id) && !Present(t, id) ==>
                  || (id in t.included && Seen(c, s, a, id, Some(Included)))
                  || (a.Drop? && Holds(s.queue, s.pc.tx, id))
                  || (a.Crash? && InHand(s, id)))
            && (id in t.included && id !in s.included ==> Seen(c, s, a, id, Some(Included)))
            && (id in t.replayed && id !in s.replayed ==> Seen(c, s, a, id, Some(Missing(Accepted(true)))))
  {
    var t := Step(c, s, a);
    StepPlaces(c, s, a);
    if a.Readd? { HoldsAfterInsert(s.queue, s.pc.tx, s.pc.ids); }
    if a.Add? { HoldsAfterInsert(s.queue, a.tx, {s.next}); }
    if !s.pc.Idle? { HoldsAfterRemoval(s.queue, s.pc.tx); }
    if Queued(s, id) {
      var tx :| tx in s.queue && Holds(s.queue, tx, id);
      assert Holds(t.queue, tx, id) || (!s.pc.Idle? && tx == s.pc.tx);
    }
    if InHand(s, id) && a.Readd? { assert Holds(t.queue, s.pc.tx, id); }
  }

  /** The loop examined the member that holds the addition, and it was old enough for the status to count. */
  predicate Seen(c: FeeBumping, s: State, a: Action, id: nat, status: Option<Status>) {
    a.Examine? && a.status == status && s.pc.Looking? && Holds(s.queue, s.pc.tx, id) && !TooYoung(c, s.pc.tx, a.now)
  }

  // ----- Runs -----

  /** One step, exactly: it leaves an addition untracked if and only if it is one of the losing ones. */
  lemma StepKeepsTrackedIff(c: FeeBumping, s: State, a: Action)
    requires WellPlaced(s) && AllTracked(s) && Enabled(s, a)
    ensures AllTracked(Step(c, s, a)) <==> !Loses(s, a)
  {
    var t := Step(c, s, a);
    StepPlaces(c, s, a);
    if !Loses(s, a) {
      forall id: nat | id < t.next ensures Present(t, id) || Settled(t, id) {
        if a.Add? && id == s.next {
          HoldsAfterInsert(s.queue, a.tx, {s.next});
          assert Holds(t.queue, a.tx, id);
        } else {
          LeavesOnlyBy(c, s, a, id);
          if !s.pc.Idle? { HoldsAfterRemoval(s.queue, s.pc.tx); }
        }
      }
    } else if a.Crash? {
      var id :| id in s.pc.ids && id !in s.replayed;
      LostInCrash(c, s, id);
    } else {
      var id :| id in IdsOf(s.queue, s.pc.tx) && id !in s.replayed;
      LostInDrop(c, s, id);
    }
  }

  lemma LostInCrash(c: FeeBumping, s: State, id: nat)
    requires WellPlaced(s) && s.pc.Moving? && id in s.pc.ids && id !in s.replayed
    ensures Lost(Step(c, s, Crash), id)
  {
    assert InHand(s, id);
    assert forall tx :: !Holds(s.queue, tx, id);
  }

  lemma LostInDrop(c: FeeBumping, s: State, id: nat)
    requires WellPlaced(s) && s.pc.Replaying? && id in IdsOf(s.queue, s.pc.tx) && id !in s.replayed
    ensures Lost(Step(c, s, Drop), id)
  {
    HoldsAfterRemoval(s.queue, s.pc.tx);
    assert Holds(s.queue, s.pc.tx, id);
    assert Queued(s, id);
  }

  predicate Lost(s: State, id: nat) { id < s.next && !Present(s, id) && !Settled(s, id) }

  lemma StaysLost(c: FeeBumping, s: State, a: Action, id: nat)
    requires WellPlaced(s) && Enabled(s, a) && Lost(s, id)
    ensures Lost(Step(c, s, a), id)
  {
    if Present(Step(c, s, a), id) { PresentBefore(c, s, a, id); }
    LeavesOnlyBy(c, s, a, id);
    assert !s.pc.Idle? && Holds(s.queue, s.pc.tx, id) ==> Queued(s, id);
  }

  /** No step of the run is a losing one. */
  predicate LosesNothing(c: FeeBumping, s: State, acts: seq<Action>)
    decreases |acts|
  {
    acts != [] && Enabled(s, acts[0]) ==> !Loses(s, acts[0]) && LosesNothing(c, Step(c, s, acts[0]), acts[1..])
  }

  lemma {:induction false} ExecKeepsPlaces(c: FeeBumping, s: State, acts: seq<Action>)
    requires WellPlaced(s) && Exec(c, s, acts).Some?
    ensures WellPlaced(Exec(c, s, acts).value)
    decreases |acts|
  {
    if acts != [] {
      StepKeepsPlaces(c, s, acts[0]);
      ExecKeepsPlaces(c, Step(c, s, acts[0]), acts[1..]);
    }
  }

  lemma {:induction false} ExecStaysLost(c: FeeBumping, s: State, acts: seq<Action>, id: nat)
    requires WellPlaced(s) && Exec(c, s, acts).Some? && Lost(s, id)
    ensures Lost(Exec(c, s, acts).value, id)
    decreases |acts|
  {
    if acts != [] {
      StepKeepsPlaces(c, s, acts[0]);
      StaysLost(c, s, acts[0], id);
      ExecStaysLost(c, Step(c, s, acts[0]), acts[1..], id);
    }
  }

  /**
   * Whole runs, exactly: at the end every addition is queued, in hand, or was itself seen included or replayed, if
   * and only if no step of the run was a losing one. What is lost once is never found again.
   */
  lemma {:induction false} EntriesAreTrackedIff(c: FeeBumping, s: State, acts: seq<Action>)
    requires WellPlaced(s) && AllTracked(s) && Exec(c, s, acts).Some?
    ensures AllTracked(Exec(c, s, acts).value) <==> LosesNothing(c, s, acts)
    decreases |acts|
  {
    if acts != [] {
      var t := Step(c, s, acts[0]);
      StepKeepsPlaces(c, s, acts[0]);
      StepKeepsTrackedIff(c, s, acts[0]);
      if AllTracked(t) {
        EntriesAreTrackedIff(c, t, acts[1..]);
      } else {
        var id: nat :| id < t.next && !(Present(t, id) || Settled(t, id));
        ExecStaysLost(c, t, acts[1..], id);
      }
    }
  }

  /** In every run from the empty queue an addition keeps its nonce and source event through any number of bumps. */
  lemma EntriesKeepLineage(c: FeeBumping, acts: seq<Action>, id: nat)
    requires Exec(c, Init(), acts).Some?
    ensures var t := Exec(c, Init(), acts).value;
            && (forall tx :: Holds(t.queue, tx, id) ==> id in t.origin && Lineage(tx) == t.origin[id])
            && (InHand(t, id) ==> id in t.origin && Lineage(t.pc.tx) == t.origin[id])
            && (forall tx, u :: Holds(t.queue, tx, id) && Holds(t.queue, u, id) ==> tx == u)
  {
    ExecKeepsPlaces(c, Init(), acts);
  }

  // ----- Runs that lose an entry -----

  lemma FirstReplacement(c: FeeBumping, s: State, tx: PendingTx, txHash: string, now: int)
    requires s.queue == map[] && s.pc.Idle? && !TooYoung(c, tx, now)
    ensures var acts := [Add(tx), Look(tx), Examine(now, Some(Pending(Some(txHash))))];
            Exec(c, s, acts) == Some(s.(next := s.next + 1, pc := Moving(Bumped(tx, txHash, now), {s.next}),
                                       origin := s.origin[s.next := Lineage(tx)]))
  {
    var a, b, d := Add(tx), Look(tx), Examine(now, Some(Pending(Some(txHash))));
    var s1 := Step(c, s, a);
    assert {} + {s.next} == {s.next};
    assert s1.queue == map[tx := {s.next}];
    var s2 := Step(c, s1, b);
    var s3 := Step(c, s2, d);
    assert s3.queue == map[];
    ExecCons(c, s2, d, []);
    ExecCons(c, s1, b, [d]);
    ExecCons(c, s, a, [b, d]);
    assert [a] + [b, d] == [a, b, d] && [b] + [d] == [b, d] && [d] + [] == [d];
  }

  /**
   * The process dies while an entry is in the loop's hand. It is lost from any state with an empty queue, also when
   * entries of the same nonce and source event were included or replayed before.
   */
  lemma CrashLosesEntry(c: FeeBumping, s: State, tx: PendingTx, txHash: string, now: int)
    requires WellPlaced(s) && s.queue == map[] && s.pc.Idle? && !TooYoung(c, tx, now)
    ensures var acts := [Add(tx), Look(tx), Examine(now, Some(Pending(Some(txHash))))] + [Crash];
            Exec(c, s, acts).Some? && Lost(Exec(c, s, acts).value, s.next)
  {
    FirstReplacement(c, s, tx, txHash, now);
    var acts := [Add(tx), Look(tx), Examine(now, Some(Pending(Some(txHash))))];
    var t := Exec(c, s, acts).value;
    ExecThen(c, s, acts, [Crash]);
    ExecCons(c, t, Crash, []);
    assert [Crash] + [] == [Crash];
  }

  /** The stream does not store a replay that its client accepted. */
  lemma UnstoredReplayLosesEntry(c: FeeBumping, tx: PendingTx, now: int)
    requires !TooYoung(c, tx, now)
    ensures var acts := [Add(tx), Look(tx), Examine(now, Some(Missing(Accepted(false)))), Drop];
            Exec(c, Init(), acts).Some? && Lost(Exec(c, Init(), acts).value, 0)
  {
    var a, b, d := Add(tx), Look(tx), Examine(now, Some(Missing(Accepted(false))));
    var s1 := Step(c, Init(), a);
    assert {} + {0} == {0};
    assert s1.queue == map[tx := {0}];
    var s2 := Step(c, s1, b);
    var s3 := Step(c, s2, d);
    var s4 := Step(c, s3, Drop);
    assert s4.queue == map[];
    ExecCons(c, s3, Drop, []);
    ExecCons(c, s2, d, [Drop]);
    ExecCons(c, s1, b, [d, Drop]);
    ExecCons(c, Init(), a, [b, d, Drop]);
    assert [a] + [b, d, Drop] == [a, b, d, Drop] && [b] + [d, Drop] == [b, d, Drop];
    assert [d] + [Drop] == [d, Drop] && [Drop] + [] == [Drop];
  }

  lemma {:induction false} ExecThen(c: FeeBumping, s: State, acts: seq<Action>, more: seq<Action>)
    requires Exec(c, s, acts).Some?
    ensures Exec(c, s, acts + more) == Exec(c, Exec(c, s, acts).value, more)
    decreases |acts|
  {
    if acts == [] {
      assert acts + more == more;
    } else {
      ExecThen(c, Step(c, s, acts[0]), acts[1..], more);
      assert (acts + more)[1..] == acts[1..] + more;
    }
  }
}
