/**
 * What each step of the deferral protocol (omni-relayer/src/workers/utxo.rs, omni-relayer/src/startup/utxo_lc_poller.rs)
 * changes, place by place, and that nothing in it gets stuck.
 */
module DeferralProgress {
  import opened Wrappers
  import opened AckPolicy
  import opened DeferralProtocol
  import opened DeferralSafety

  // ----- Each place after one step -----

  /** Parked by a deferral that reached the pending set, gone by a removal that did. */
  lemma PendsAfter(s: State, a: Action, e: Entry, i: nat)
    requires Enabled(s, a)
    ensures Pends(Step(s, a).pending, e, i) <==>
            || (Pends(s.pending, e, i) && !(a.Unpark? && a.applied && s.pollers[a.poller].removing == Some(e)))
            || ((a.Defer? || (a.DeferFails? && a.applied)) && i in s.tasks[a.task].message.origins
                && e == Entry(s.tasks[a.task].message.item, a.target, a.stamp))
  {
  }

  /** The landed answer that takes a message off the stream. */
  predicate TakesOff(s: State, a: Action) {
    && a.Settle? && a.landed && a.task in s.tasks
    && (a.expired || s.tasks[a.task].verdict == Some(Ok(EventAction.Remove)) || s.tasks[a.task].verdict == Some(Ok(EventAction.Drop)))
  }

  /** Stored at ingestion or by a replay, under an id that is not remembered; gone by a terminal answer that landed. */
  lemma StreamsAfter(s: State, a: Action, m: nat, i: nat)
    requires Numbered(s) && Enabled(s, a)
    ensures Streams(Step(s, a).unacked, m, i) <==>
            || (Streams(s.unacked, m, i) && !(TakesOff(s, a) && m == s.tasks[a.task].msg))
            || (m == s.next && a.Ingest? && Ingested(a.name) !in s.dedup && i == s.born)
            || (m == s.next && a.Publish? && a.outcome.stored && Replayed(a.entry) !in s.dedup
                && (Pends(s.pollers[a.poller].ready, a.entry, i) || Pends(s.pending, a.entry, i)))
  {
  }

  /** Finished when such an answer is to a delivery that was not parked. */
  lemma FinishedAfter(s: State, a: Action, i: nat)
    requires Enabled(s, a)
    ensures i in Step(s, a).finished <==>
            i in s.finished || (TakesOff(s, a) && !s.tasks[a.task].parked && i in s.tasks[a.task].message.origins)
  {
  }

  // ----- Nothing gets stuck -----

  lemma ExecTwo(s: State, a: Action, b: Action)
    requires Enabled(s, a) && Enabled(Step(s, a), b)
    ensures Exec(s, [a, b]) == Some(Step(Step(s, a), b))
  {
    ExecCons(s, a, [b]);
    ExecCons(Step(s, a), b, []);
    assert [a] + [b] == [a, b] && [b] + [] == [b];
  }

  /** A message on the stream can be delivered again after a crash of everything, and then be finished. */
  lemma FinishFromStream(s: State, m: nat, i: nat) returns (acts: seq<Action>)
    requires Streams(s.unacked, m, i)
    ensures Exec(s, acts).Some? && i in Exec(s, acts).value.finished
  {
    var crash, deliver := Crash(s.tasks.Keys, s.pollers.Keys), Deliver(0, m);
    var s1 := Step(s, crash);
    var s2 := Step(s1, deliver);
    var done, settle := Return(0, Ok(EventAction.Remove)), Settle(0, false, true);
    var s3 := Step(s2, done);
    ExecTwo(s, crash, deliver);
    ExecTwo(s2, done, settle);
    ExecThen(s, [crash, deliver], [done, settle]);
    FinishedAfter(s3, settle, i);
    acts := [crash, deliver] + [done, settle];
  }

  /** A parked entry can be replayed once the stream has forgotten its id and the tip has reached its target. */
  lemma ReplayToStream(s: State, e: Entry, i: nat) returns (acts: seq<Action>)
    requires Numbered(s) && Pends(s.pending, e, i)
    ensures Exec(s, acts).Some? && Streams(Exec(s, acts).value.unacked, s.next, i)
  {
    var crash, forget := Crash(s.tasks.Keys, s.pollers.Keys), Forget(Replayed(e));
    var s1 := Step(s, crash);
    var s2 := Step(s1, forget);
    var tip, publish := ReadTip(0, e.target), Publish(0, e, Accepted(true));
    var s3 := Step(s2, tip);
    ExecTwo(s, crash, forget);
    ExecTwo(s2, tip, publish);
    ExecThen(s, [crash, forget], [tip, publish]);
    acts := [crash, forget] + [tip, publish];
  }

  /** From every state, whatever is alive can be finished. */
  lemma CanBeFinished(s: State, i: nat) returns (acts: seq<Action>)
    requires Numbered(s) && Alive(s, i)
    ensures Exec(s, acts).Some? && i in Exec(s, acts).value.finished
  {
    if i in s.finished {
      acts := [];
    } else if OnStream(s, i, -1) {
      var m :| m in s.unacked && Streams(s.unacked, m, i);
      acts := FinishFromStream(s, m, i);
    } else {
      var e :| e in s.pending && Pends(s.pending, e, i);
      var first := ReplayToStream(s, e, i);
      var second := FinishFromStream(Exec(s, first).value, s.next, i);
      ExecThen(s, first, second);
      acts := first + second;
    }
  }

  /**
   * No dead end: after every run with fresh stamps and stored publishes, however it crashed, retried and parked, each
   * ingestion the stream once stored still has a run that ends with a delivery of it done for good.
   */
  lemma EveryIngestionCanFinish(past: seq<Action>, i: nat) returns (acts: seq<Action>)
    requires FreshRun(Init(), past) && StoredRun(past) && Exec(Init(), past).Some?
    requires i < Exec(Init(), past).value.born
    ensures Exec(Init(), past + acts).Some? && i in Exec(Init(), past + acts).value.finished
  {
    var s := Exec(Init(), past).value;
    NothingIsLost(past);
    ExecKeepsInv(Init(), past);
    acts := CanBeFinished(s, i);
    ExecThen(Init(), past, acts);
  }
}
