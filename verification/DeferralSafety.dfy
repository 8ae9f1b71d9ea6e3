/**
 * No run of module DeferralProtocol loses anything, as long as deferrals reuse no id and accepted publishes are stored:
 * an invariant of every step, and the theorem it gives.
 */
module DeferralSafety {
  import opened Wrappers
  import opened AckPolicy
  import opened DeferralProtocol

  /** An entry whose replay will certainly be stored. */
  predicate Live(s: State, e: Entry) { Replayed(e) !in s.published }

  predicate HasLive(s: State, i: nat) { exists e | e in s.pending :: Pends(s.pending, e, i) && Live(s, e) }

  predicate Carried(s: State, i: nat, after: int) {
    i in s.finished || OnStream(s, i, after) || HasLive(s, i)
  }

  ghost predicate ParkedOk(s: State, t: Task) {
    t.parked ==> t.verdict.Some? && forall i | i in t.message.origins :: Carried(s, i, t.msg)
  }

  predicate TickOk(s: State, tick: Tick) {
    && OnTime(tick)
    && (tick.removing.Some? ==> Replayed(tick.removing.value) in s.published)
  }

  /** What every state of a run with fresh stamps and stored publishes satisfies. */
  ghost predicate Inv(s: State) {
    && Numbered(s)
    && (forall i: nat | i < s.born :: Carried(s, i, -1))
    && s.dedup <= s.published
    && (forall t | t in s.tasks :: ParkedOk(s, s.tasks[t]))
    && forall p | p in s.pollers :: TickOk(s, s.pollers[p])
  }

  /** Carriers of `s` that are still carriers in `t`. */
  ghost predicate Keeps(s: State, t: State) {
    forall i, after :: Carried(s, i, after) && after < s.next ==> Carried(t, i, after)
  }

  lemma StoreKeeps(s: State, message: Message, id: MsgId)
    requires Numbered(s)
    requires id.Replayed? ==> OriginsOf(s.pending, id.entry) <= message.origins
    ensures Keeps(s, Store(s, message, id))
  {
    var t := Store(s, message, id);
    if id !in s.dedup {
      forall i, after | Carried(s, i, after) && after < s.next ensures Carried(t, i, after) {
        if i !in s.finished {
          if OnStream(s, i, after) {
            var m :| m in s.unacked && m > after && Streams(s.unacked, m, i);
            assert Streams(t.unacked, m, i);
          } else {
            var e :| e in s.pending && Pends(s.pending, e, i) && Live(s, e);
            if id == Replayed(e) {
              assert Streams(t.unacked, s.next, i);
            } else {
              assert Pends(t.pending, e, i) && Live(t, e);
            }
          }
        }
      }
    }
  }

  lemma KeptTasks(s: State, t: State)
    requires Numbered(s) && Keeps(s, t) && t.tasks == s.tasks && forall k | k in s.tasks :: ParkedOk(s, s.tasks[k])
    ensures forall k | k in t.tasks :: ParkedOk(t, t.tasks[k])
  {
    forall k | k in t.tasks ensures ParkedOk(t, t.tasks[k]) {
      assert ParkedOk(s, s.tasks[k]) && TaskOk(s, s.tasks[k]);
    }
  }

  lemma IngestKeepsInv(s: State, item: string, name: string)
    requires Inv(s)
    ensures Inv(Ingestion(s, item, name))
  {
    var t := Ingestion(s, item, name);
    IngestNumbers(s, item, name);
    StoreKeeps(s, Message(item, {s.born}), Ingested(name));
    if Ingested(name) !in s.dedup {
      assert Keeps(s, t) by {
        var u := Store(s, Message(item, {s.born}), Ingested(name));
        assert forall i, after :: Carried(u, i, after) <==> Carried(t, i, after);
      }
      KeptTasks(s, t);
      assert Streams(t.unacked, s.next, s.born);
    }
  }

  lemma ParkKeeps(s: State, task: nat, e: Entry, verdict: WorkerResult, parked: bool, applied: bool)
    requires task in s.tasks
    ensures Keeps(s, Park(s, task, e, verdict, parked, applied))
  {
    var t := Park(s, task, e, verdict, parked, applied);
    forall i, after | Carried(s, i, after) ensures Carried(t, i, after) {
      if HasLive(s, i) {
        var f :| f in s.pending && Pends(s.pending, f, i) && Live(s, f);
        assert Pends(t.pending, f, i) && Live(t, f);
      }
    }
  }

  lemma ParkKeepsInv(s: State, task: nat, e: Entry, verdict: WorkerResult, parked: bool, applied: bool)
    requires Inv(s) && Working(s, task)
    requires parked ==> applied
    requires applied ==> Replayed(e) !in s.published
    ensures Inv(Park(s, task, e, verdict, parked, applied))
  {
    var t := Park(s, task, e, verdict, parked, applied);
    ParkNumbers(s, task, e, verdict, parked, applied);
    ParkKeeps(s, task, e, verdict, parked, applied);
    forall k | k in t.tasks ensures ParkedOk(t, t.tasks[k]) {
      assert TaskOk(s, s.tasks[k]) && ParkedOk(s, s.tasks[k]);
      if k == task && parked {
        forall i | i in t.tasks[k].message.origins ensures Carried(t, i, t.tasks[k].msg) {
          assert Pends(t.pending, e, i) && Live(t, e);
        }
      }
    }
  }

  lemma DisposeKeeps(s: State, task: nat, left: bool)
    requires Numbered(s) && task in s.tasks && ParkedOk(s, s.tasks[task])
    ensures Keeps(s, Dispose(s, task, left))
  {
    var u, t := s.tasks[task], Dispose(s, task, left);
    assert TaskOk(s, u);
    forall i, after | Carried(s, i, after) ensures Carried(t, i, after) {
      if HasLive(s, i) {
        var e :| e in s.pending && Pends(s.pending, e, i) && Live(s, e);
        assert Pends(t.pending, e, i) && Live(t, e);
      } else if i !in t.finished {
        var m :| m in s.unacked && m > after && Streams(s.unacked, m, i);
        if m in t.unacked {
          assert Streams(t.unacked, m, i);
        } else {
          assert i in u.message.origins && u.parked;
          assert Carried(s, i, u.msg);
          var n :| n in s.unacked && n > u.msg && Streams(s.unacked, n, i);
          assert Streams(t.unacked, n, i) && n > after;
        }
      }
    }
  }

  lemma DisposeKeepsInv(s: State, task: nat, left: bool)
    requires Inv(s) && task in s.tasks && Numbered(Dispose(s, task, left))
    ensures Inv(Dispose(s, task, left))
  {
    var t := Dispose(s, task, left);
    assert ParkedOk(s, s.tasks[task]);
    DisposeKeeps(s, task, left);
    forall k | k in t.tasks ensures ParkedOk(t, t.tasks[k]) {
      assert TaskOk(s, s.tasks[k]) && ParkedOk(s, s.tasks[k]);
    }
  }

  lemma OfferKeeps(s: State, p: nat, e: Entry, outcome: Published)
    requires Numbered(s) && Enabled(s, Publish(p, e, outcome))
    ensures Keeps(s, Offer(s, p, e, outcome))
  {
    var message, t := ReplayOf(s, p, e), Offer(s, p, e, outcome);
    var stored := if outcome.stored then Store(s, message, Replayed(e)) else s;
    StoreKeeps(s, message, Replayed(e));
    assert forall i, after :: Carried(stored, i, after) <==> Carried(t, i, after);
  }

  lemma OfferKeepsInv(s: State, p: nat, e: Entry, outcome: Published)
    requires Inv(s) && Enabled(s, Publish(p, e, outcome)) && StoresAccepted(Publish(p, e, outcome))
    ensures Inv(Offer(s, p, e, outcome))
  {
    var t := Offer(s, p, e, outcome);
    OfferKeeps(s, p, e, outcome);
    OfferNumbers(s, p, e, outcome);
    KeptTasks(s, t);
    assert TickOk(s, s.pollers[p]);
    assert TickOk(t, t.pollers[p]);
    forall q | q in t.pollers && q != p ensures TickOk(t, t.pollers[q]) {
      assert TickOk(s, s.pollers[q]) && t.pollers[q] == s.pollers[q];
    }
  }

  /** Steps after which every carrier is still there, and nothing new has to be carried. */
  lemma OtherStepsKeepInv(s: State, a: Action)
    requires Inv(s) && Enabled(s, a)
    requires a.Forget? || a.Deliver? || a.Return? || a.Crash? || a.ReadTip? || a.EndTick?
    ensures Inv(Step(s, a))
  {
    var t := Step(s, a);
    StepNumbers(s, a);
    assert forall i, after :: Carried(s, i, after) <==> Carried(t, i, after);
    forall k | k in t.tasks ensures ParkedOk(t, t.tasks[k]) {
      if k in s.tasks { assert ParkedOk(s, s.tasks[k]); }
    }
    forall p | p in t.pollers ensures TickOk(t, t.pollers[p]) {
      if p in s.pollers { assert TickOk(s, s.pollers[p]); }
    }
  }

  lemma UnparkKeepsInv(s: State, p: nat, applied: bool)
    requires Inv(s) && Enabled(s, Unpark(p, applied))
    ensures Inv(Step(s, Unpark(p, applied)))
  {
    var t := Step(s, Unpark(p, applied));
    StepNumbers(s, Unpark(p, applied));
    assert TickOk(s, s.pollers[p]);
    forall i, after | Carried(s, i, after) ensures Carried(t, i, after) {
      if HasLive(s, i) {
        var e :| e in s.pending && Pends(s.pending, e, i) && Live(s, e);
        assert Pends(t.pending, e, i) && Live(t, e);
      }
    }
    KeptTasks(s, t);
    forall q | q in t.pollers ensures TickOk(t, t.pollers[q]) { assert TickOk(s, s.pollers[q]); }
  }

  lemma StepKeepsInv(s: State, a: Action)
    requires Inv(s) && Enabled(s, a) && FreshStamp(s, a) && StoresAccepted(a)
    ensures Inv(Step(s, a))
  {
    StepNumbers(s, a);
    match a
    case Ingest(item, name) => IngestKeepsInv(s, item, name);
    case Defer(task, _, _) => ParkKeepsInv(s, task, EntryOf(s, a), Ok(EventAction.Remove), true, true);
    case DeferFails(task, _, _, applied) => ParkKeepsInv(s, task, EntryOf(s, a), Ok(Retry), false, applied);
    case Settle(task, expired, landed) =>
      DisposeKeepsInv(s, task, landed && Ends(s.tasks[task].verdict.value, expired));
    case Publish(p, e, outcome) => OfferKeepsInv(s, p, e, outcome);
    case Unpark(p, applied) => UnparkKeepsInv(s, p, applied);
    case _ => OtherStepsKeepInv(s, a);
  }

  lemma {:induction false} ExecKeepsInv(s: State, acts: seq<Action>)
    requires Inv(s) && FreshRun(s, acts) && StoredRun(acts) && Exec(s, acts).Some?
    ensures Inv(Exec(s, acts).value)
    decreases |acts|
  {
    if acts != [] {
      StepKeepsInv(s, acts[0]);
      ExecKeepsInv(Step(s, acts[0]), acts[1..]);
    }
  }

  /**
   * No loss: whatever workers, crashes, lost or failed acks, expiring message ids and pollers do, in any order, an
   * ingestion the stream once stored stays unacked on the stream or pending until a delivery of it ends for good,
   * provided that deferrals reuse no id and accepted publishes are stored.
   */
  lemma NothingIsLost(acts: seq<Action>)
    requires FreshRun(Init(), acts) && StoredRun(acts) && Exec(Init(), acts).Some?
    ensures NoLoss(Exec(Init(), acts).value)
  {
    ExecKeepsInv(Init(), acts);
    InvIsNoLoss(Exec(Init(), acts).value);
  }

  lemma InvIsNoLoss(s: State)
    requires Inv(s)
    ensures NoLoss(s)
  {
    forall i: nat | i < s.born ensures Alive(s, i) {
      assert Carried(s, i, -1);
    }
  }
}
