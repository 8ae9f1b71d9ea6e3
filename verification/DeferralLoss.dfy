/**
 * What the runs of module DeferralProtocol lose, exactly, whether or not stamps are fresh and accepted publishes stored.
 */
module DeferralLoss {
  import opened Wrappers
  import opened AckPolicy
  import opened DeferralProtocol
  import opened DeferralSafety

  // ----- Exactly which steps lose something -----

  /** Nothing but the message `m` stands for the ingestion. */
  predicate OnlyStreamed(s: State, m: nat, i: nat) {
    i !in s.finished && !InPending(s, i) && forall n | n in s.unacked && n != m :: !Streams(s.unacked, n, i)
  }

  /** Nothing but the entry `e` stands for the ingestion. */
  predicate OnlyParked(s: State, e: Entry, i: nat) {
    i !in s.finished && !OnStream(s, i, -1) && forall f | f in s.pending && f != e :: !Pends(s.pending, f, i)
  }

  predicate Acks(s: State, a: Action) {
    && a.Settle? && a.task in s.tasks && s.tasks[a.task].verdict.Some?
    && a.landed && Ends(s.tasks[a.task].verdict.value, a.expired)
  }

  /**
   * The landed ack of a parked delivery whose message is the last carrier of an ingestion, or the removal of an entry
   * that is.
   */
  predicate Loses(s: State, a: Action) {
    || (Acks(s, a) && s.tasks[a.task].parked && s.tasks[a.task].msg in s.unacked
        && exists i | i in s.unacked[s.tasks[a.task].msg].origins :: OnlyStreamed(s, s.tasks[a.task].msg, i))
    || (a.Unpark? && a.applied && a.poller in s.pollers && s.pollers[a.poller].removing.Some?
        && exists i | i in OriginsOf(s.pending, s.pollers[a.poller].removing.value) ::
             OnlyParked(s, s.pollers[a.poller].removing.value, i))
  }

  lemma AckKeepsIff(s: State, a: Action)
    requires Numbered(s) && NoLoss(s) && Enabled(s, a) && a.Settle?
    ensures NoLoss(Step(s, a)) <==> !Loses(s, a)
  {
    var t, u := Step(s, a), s.tasks[a.task];
    assert TaskOk(s, u);
    assert t.pending == s.pending && t.born == s.born;
    if Loses(s, a) {
      var i :| i in s.unacked[u.msg].origins && OnlyStreamed(s, u.msg, i);
      assert Streams(s.unacked, u.msg, i);
      assert forall n | n in t.unacked :: !Streams(t.unacked, n, i);
      assert !Alive(t, i);
    } else {
      forall i: nat | i < t.born ensures Alive(t, i) {
        assert Alive(s, i);
        if OnStream(s, i, -1) {
          var m :| m in s.unacked && Streams(s.unacked, m, i);
          if m in t.unacked {
            assert Streams(t.unacked, m, i);
          } else if u.parked && i !in s.finished && !InPending(s, i) {
            assert !OnlyStreamed(s, u.msg, i);
            var n :| n in s.unacked && n != u.msg && Streams(s.unacked, n, i);
            assert Streams(t.unacked, n, i);
          }
        }
        if InPending(s, i) {
          var e :| e in s.pending && Pends(s.pending, e, i);
          assert Pends(t.pending, e, i);
        }
      }
    }
  }

  lemma UnparkKeepsIff(s: State, a: Action)
    requires Numbered(s) && NoLoss(s) && Enabled(s, a) && a.Unpark?
    ensures NoLoss(Step(s, a)) <==> !Loses(s, a)
  {
    var t, e := Step(s, a), s.pollers[a.poller].removing.value;
    assert t.unacked == s.unacked && t.born == s.born && t.finished == s.finished;
    assert forall i :: OnStream(t, i, -1) <==> OnStream(s, i, -1);
    if Loses(s, a) {
      var i :| i in OriginsOf(s.pending, e) && OnlyParked(s, e, i);
      assert Pends(s.pending, e, i);
      assert forall f | f in t.pending :: !Pends(t.pending, f, i);
      assert !Alive(t, i);
    } else {
      forall i: nat | i < t.born ensures Alive(t, i) {
        assert Alive(s, i);
        if InPending(s, i) && i !in s.finished && !OnStream(s, i, -1) {
          var f :| f in s.pending && Pends(s.pending, f, i);
          if f in t.pending {
            assert Pends(t.pending, f, i);
          } else {
            assert i in OriginsOf(s.pending, e) && !OnlyParked(s, e, i);
            var g :| g in s.pending && g != e && Pends(s.pending, g, i);
            assert Pends(t.pending, g, i);
          }
        }
      }
    }
  }

  /** Everything else leaves each carrier where it is, or adds one. */
  lemma OthersKeepAll(s: State, a: Action)
    requires Numbered(s) && NoLoss(s) && Enabled(s, a) && !a.Settle? && !a.Unpark?
    ensures NoLoss(Step(s, a))
  {
    var t := Step(s, a);
    assert s.finished == t.finished;
    assert forall m: nat, i: nat :: Streams(s.unacked, m, i) && m < s.next ==> Streams(t.unacked, m, i);
    assert forall e, i :: Pends(s.pending, e, i) ==> Pends(t.pending, e, i);
    forall i: nat | i < t.born ensures Alive(t, i) {
      if i < s.born {
        assert Alive(s, i);
        if OnStream(s, i, -1) {
          var m :| m in s.unacked && Streams(s.unacked, m, i);
          assert Streams(t.unacked, m, i);
        } else if InPending(s, i) {
          var e :| e in s.pending && Pends(s.pending, e, i);
          assert Pends(t.pending, e, i);
        }
      } else {
        assert Streams(t.unacked, s.next, s.born);
      }
    }
  }

  /** One step, with stamps reused or not and publishes stored or not: it loses something if and only if it is a losing one. */
  lemma StepKeepsAllIff(s: State, a: Action)
    requires Numbered(s) && NoLoss(s) && Enabled(s, a)
    ensures NoLoss(Step(s, a)) <==> !Loses(s, a)
  {
    if a.Settle? { AckKeepsIff(s, a); } else if a.Unpark? { UnparkKeepsIff(s, a); } else { OthersKeepAll(s, a); }
  }

  predicate LosesNothing(s: State, acts: seq<Action>)
    decreases |acts|
  {
    acts != [] && Enabled(s, acts[0]) ==> !Loses(s, acts[0]) && LosesNothing(Step(s, acts[0]), acts[1..])
  }

  /** At no point of the run is an ingestion without a carrier. */
  ghost predicate NoLossThroughout(s: State, acts: seq<Action>)
    decreases |acts|
  {
    NoLoss(s) && (acts != [] && Enabled(s, acts[0]) ==> NoLossThroughout(Step(s, acts[0]), acts[1..]))
  }

  /**
   * Whole runs, exactly: nothing is without a carrier at any point of a run if and only if no step of it is a losing
   * one. (A lost ingestion can come back when a second delivery of it, still at work, parks it again.)
   */
  lemma {:induction false} NoLossThroughoutIff(s: State, acts: seq<Action>)
    requires Numbered(s) && NoLoss(s)
    ensures NoLossThroughout(s, acts) <==> LosesNothing(s, acts)
    decreases |acts|
  {
    if acts != [] && Enabled(s, acts[0]) {
      StepKeepsAllIff(s, acts[0]);
      StepNumbers(s, acts[0]);
      if NoLoss(Step(s, acts[0])) { NoLossThroughoutIff(Step(s, acts[0]), acts[1..]); }
    }
  }

  /** A losing step has one of two causes before it: a reused id, or an accepted publish that was not stored. */
  lemma {:induction false} LossHasCause(s: State, acts: seq<Action>)
    requires Inv(s) && FreshRun(s, acts) && StoredRun(acts)
    ensures LosesNothing(s, acts)
    decreases |acts|
  {
    if acts != [] && Enabled(s, acts[0]) {
      StepKeepsInv(s, acts[0]);
      InvIsNoLoss(s);
      InvIsNoLoss(Step(s, acts[0]));
      StepKeepsAllIff(s, acts[0]);
      LossHasCause(Step(s, acts[0]), acts[1..]);
    }
  }

  // ----- Replays that lose their item -----

  function ReplaySteps(p: nat, e: Entry, stored: bool): seq<Action> { [Publish(p, e, Accepted(stored)), Unpark(p, true)] }

  /**
   * What a replay does to an ingestion it is for, in any state: after an accepted publish and the removal of the
   * entry, it is still alive exactly when the stream stored the message, for which it must not have remembered the
   * entry's id, or something else stands for it.
   */
  lemma ReplayKeepsAliveIff(s: State, p: nat, e: Entry, stored: bool, i: nat)
    requires p in s.pollers && s.pollers[p].removing.None? && e in s.pollers[p].ready
    requires Numbered(s) && i in ReplayOf(s, p, e).origins
    ensures Exec(s, ReplaySteps(p, e, stored)).Some? && Exec(s, ReplaySteps(p, e, stored)).value.born == s.born
    ensures Alive(Exec(s, ReplaySteps(p, e, stored)).value, i) <==>
            || (stored && Replayed(e) !in s.dedup)
            || i in s.finished || OnStream(s, i, -1) || InPending(s.(pending := s.pending - {e}), i)
  {
    var a, b := Publish(p, e, Accepted(stored)), Unpark(p, true);
    var u := Step(s, a);
    var t := Step(u, b);
    RunOfSteps([s, u, t], [a, b]);
    var rest := s.(pending := s.pending - {e});
    assert t.pending == rest.pending && t.finished == s.finished;
    assert InPending(t, i) <==> InPending(rest, i);
    if stored && Replayed(e) !in s.dedup {
      assert Streams(t.unacked, s.next, i);
    } else {
      assert t.unacked == s.unacked;
      assert OnStream(t, i, -1) <==> OnStream(s, i, -1);
    }
  }

  lemma {:induction false} RunOfSteps(states: seq<State>, acts: seq<Action>)
    requires |states| == |acts| + 1
    requires forall i :: 0 <= i < |acts| ==> Enabled(states[i], acts[i]) && Step(states[i], acts[i]) == states[i + 1]
    ensures Exec(states[0], acts) == Some(states[|acts|])
    decreases |acts|
  {
    if acts != [] {
      RunOfSteps(states[1..], acts[1..]);
    }
  }

  lemma {:induction false} FreshOfSteps(states: seq<State>, acts: seq<Action>)
    requires |states| == |acts| + 1
    requires forall i :: 0 <= i < |acts| ==> Enabled(states[i], acts[i]) && Step(states[i], acts[i]) == states[i + 1]
    requires forall i :: 0 <= i < |acts| ==> FreshStamp(states[i], acts[i])
    ensures FreshRun(states[0], acts)
    decreases |acts|
  {
    if acts != [] {
      FreshOfSteps(states[1..], acts[1..]);
    }
  }

  lemma {:induction false} FreshThen(s: State, acts: seq<Action>, more: seq<Action>)
    requires Exec(s, acts).Some? && FreshRun(s, acts) && FreshRun(Exec(s, acts).value, more)
    ensures FreshRun(s, acts + more)
    decreases |acts|
  {
    if acts == [] {
      assert acts + more == more;
    } else {
      FreshThen(Step(s, acts[0]), acts[1..], more);
      assert (acts + more)[1..] == acts[1..] + more;
    }
  }

  function LastSteps(e: Entry, stored: bool): seq<Action> { [ReadTip(0, 5)] + ReplaySteps(0, e, stored) }

  /** The next poll replays the one pending entry, and what it stands for is gone if the replay fails it. */
  lemma LastReplay(s: State, e: Entry, stored: bool)
    requires s.pollers == map[] && s.pending == map[e := {0}] && s.unacked == map[] && s.tasks == map[]
    requires e.target == 5 && 0 !in s.finished && s.born == 1
    requires stored ==> Replayed(e) in s.dedup
    ensures Exec(s, LastSteps(e, stored)).Some? && !NoLoss(Exec(s, LastSteps(e, stored)).value)
    ensures FreshRun(s, LastSteps(e, stored))
  {
    var t := Step(s, ReadTip(0, 5));
    assert t.pollers[0].ready == map[e := {0}];
    assert Pends(t.pending, e, 0);
    ReplayKeepsAliveIff(t, 0, e, stored, 0);
    assert t.pending - {e} == map[];
    ExecCons(s, ReadTip(0, 5), ReplaySteps(0, e, stored));
    var u := Step(t, Publish(0, e, Accepted(stored)));
    FreshOfSteps([t, u, Step(u, Unpark(0, true))], ReplaySteps(0, e, stored));
    assert LastSteps(e, stored)[1..] == ReplaySteps(0, e, stored);
  }

  /** With the clock reading the same millisecond twice, a run loses an item although accepted publishes are stored. */
  lemma ReusedStampLosesItem(item: string, name: string) returns (acts: seq<Action>)
    ensures Exec(Init(), acts).Some? && !NoLoss(Exec(Init(), acts).value)
    ensures StoredRun(acts)
  {
    var e := Entry(item, 5, 9);
    var a := DeferOnce(item, name);
    var b := ReplayOnce(item, name);
    var c := DeferAgain(item, name);
    var last := LastSteps(e, true);
    LastReplay(AfterSecondDefer(item, name), e, true);
    acts := a + (b + (c + last));
    ExecThen(AfterReplay(item, name), c, last);
    ExecThen(AfterDefer(item, name), b, c + last);
    ExecThen(Init(), a, b + (c + last));
  }

  /** With an accepted publish that the stream does not store, a run loses an item although every stamp is fresh. */
  lemma UnstoredReplayLosesItem(item: string, name: string) returns (acts: seq<Action>)
    ensures Exec(Init(), acts).Some? && !NoLoss(Exec(Init(), acts).value)
    ensures FreshRun(Init(), acts)
  {
    var e := Entry(item, 5, 9);
    var a := DeferOnce(item, name);
    var last := LastSteps(e, false);
    LastReplay(AfterDefer(item, name), e, false);
    acts := a + last;
    ExecThen(Init(), a, last);
    FreshThen(Init(), a, last);
  }

  function AfterDefer(item: string, name: string): State {
    Init().(born := 1, next := 1, dedup := {Ingested(name)}, published := {Ingested(name)},
      pending := map[Entry(item, 5, 9) := {0}])
  }

  function AfterReplay(item: string, name: string): State {
    var id := Replayed(Entry(item, 5, 9));
    AfterDefer(item, name).(next := 2, unacked := map[1 := Message(item, {0})], pending := map[],
      dedup := {Ingested(name), id}, published := {Ingested(name), id}, replays := {Replay(Entry(item, 5, 9), 5)})
  }

  function AfterSecondDefer(item: string, name: string): State {
    AfterReplay(item, name).(unacked := map[], pending := map[Entry(item, 5, 9) := {0}])
  }

  lemma DeferOnce(item: string, name: string) returns (acts: seq<Action>)
    ensures Exec(Init(), acts) == Some(AfterDefer(item, name)) && FreshRun(Init(), acts) && StoredRun(acts)
  {
    var s1 := Step(Init(), Ingest(item, name));
    var s2 := Step(s1, Deliver(0, 0));
    var s3 := Step(s2, Defer(0, 5, 9));
    var s4 := Step(s3, Settle(0, false, true));
    acts := [Ingest(item, name), Deliver(0, 0), Defer(0, 5, 9), Settle(0, false, true)];
    RunOfSteps([Init(), s1, s2, s3, s4], acts);
    FreshOfSteps([Init(), s1, s2, s3, s4], acts);
    assert s4.unacked == map[] && s4.tasks == map[];
    assert {} + {0} == {0};
    assert s4.pending == map[Entry(item, 5, 9) := {0}];
    assert s4 == AfterDefer(item, name);
  }

  lemma ReplayOnce(item: string, name: string) returns (acts: seq<Action>)
    ensures Exec(AfterDefer(item, name), acts) == Some(AfterReplay(item, name)) && StoredRun(acts)
  {
    var e, s := Entry(item, 5, 9), AfterDefer(item, name);
    var s1 := Step(s, ReadTip(0, 5));
    var s2 := Step(s1, Publish(0, e, Accepted(true)));
    var s3 := Step(s2, Unpark(0, true));
    assert s1.pollers[0].ready == map[e := {0}];
    assert {0} + {0} == {0};
    assert ReplayOf(s1, 0, e) == Message(item, {0});
    assert s3.pollers[0].ready == map[];
    var s4 := Step(s3, EndTick(0));
    acts := [ReadTip(0, 5), Publish(0, e, Accepted(true)), Unpark(0, true), EndTick(0)];
    RunOfSteps([s, s1, s2, s3, s4], acts);
    assert s4.pollers == map[] && s4.pending == map[];
    assert s4 == AfterReplay(item, name);
  }

  lemma DeferAgain(item: string, name: string) returns (acts: seq<Action>)
    ensures Exec(AfterReplay(item, name), acts) == Some(AfterSecondDefer(item, name)) && StoredRun(acts)
  {
    var s := AfterReplay(item, name);
    var s1 := Step(s, Deliver(0, 1));
    var s2 := Step(s1, Defer(0, 5, 9));
    var s3 := Step(s2, Settle(0, false, true));
    acts := [Deliver(0, 1), Defer(0, 5, 9), Settle(0, false, true)];
    RunOfSteps([s, s1, s2, s3], acts);
    assert s3.unacked == map[] && s3.tasks == map[];
    assert {} + {0} == {0};
    assert s3.pending == map[Entry(item, 5, 9) := {0}];
    assert s3 == AfterSecondDefer(item, name);
  }
}
