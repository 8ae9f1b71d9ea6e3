/** One undisturbed transfer of module UtxoCache is a run of the concurrent protocol of module UtxoProtocol. */
module TransferRefinement {
  import opened Wrappers
  import opened UtxoCache
  import opened UtxoProtocol

  lemma TwoSteps(s: State, a: Action, b: Action)
    requires s.log != [] && Enabled(s, a) && Enabled(Step(s, a), b)
    ensures Exec(s, [a, b]) == Some(Step(Step(s, a), b))
  {
    ExecCons(Step(s, a), b, []);
    ExecCons(s, a, [b]);
    assert [a] + [b] == [a, b] && [b] + [] == [b];
  }

  lemma OneStep(s: State, a: Action)
    requires s.log != [] && Enabled(s, a)
    ensures Exec(s, [a]) == Some(Step(s, a))
  {
    ExecCons(s, a, []);
    assert [a] + [] == [a];
  }

  /** The guard is held and the set refreshed as `Locked` says; nothing else moved. */
  predicate Guarded(s: State, t: State, id: nat, answered: bool) {
    && s.log != [] && t.log != [] && t.pcs == s.pcs[id := Selecting] && t.holder == Some(id)
    && t.utxos == (if s.dirty && answered then Now(s) else s.utxos)
    && t.dirty == (s.dirty && !answered)
  }

  lemma AcquireIsRun(s: State, id: nat, answered: bool) returns (acts: seq<Action>, t: State)
    requires s.log != [] && id !in s.pcs && s.holder.None?
    ensures Exec(s, acts) == Some(t) && Guarded(s, t, id, answered)
  {
    var a, b := Begin(id), Acquire(id);
    var s1 := Step(s, a);
    var s2 := Step(s1, b);
    TwoSteps(s, a, b);
    if !s.dirty {
      return [a, b], s2;
    }
    var read := |s.log| + 1;
    assert s2.log[read] == s.log[|s.log| - 1];
    var c := Answer(id, if answered then Some(read) else None);
    t := Step(s2, c);
    OneStep(s2, c);
    acts := [a, b] + [c];
    ExecThen(s, [a, b], [c]);
  }

  lemma FailIsRun(s: State, id: nat, rpc: bool) returns (t: State)
    requires s.log != [] && id in s.pcs && s.pcs[id] == Failed(rpc)
    ensures Exec(s, [Finish(id)]) == Some(t)
    ensures t.utxos == s.utxos && t.dirty == (s.dirty || rpc) && t.pcs == s.pcs - {id} && t.holder == s.holder
  {
    t := Step(s, Finish(id));
    OneStep(s, Finish(id));
  }

  lemma NothingToRestore(s: State, id: nat, rpc: bool) returns (acts: seq<Action>, t: State)
    requires s.log != [] && id in s.pcs && s.pcs[id].Submitting? && s.pcs[id].removed == [] && s.holder.None?
    ensures Exec(s, acts) == Some(t)
    ensures t.utxos == s.utxos && t.dirty == (s.dirty || rpc) && t.pcs == s.pcs - {id} && t.holder.None?
  {
    var a := SubmitFails(id, rpc);
    var s1 := Step(s, a);
    OneStep(s, a);
    t := FailIsRun(s1, id, rpc);
    acts := [a] + [Finish(id)];
    ExecThen(s, [a], [Finish(id)]);
  }

  lemma SomeToRestore(s: State, id: nat, rpc: bool) returns (t: State)
    requires s.log != [] && id in s.pcs && s.pcs[id].Submitting? && s.pcs[id].removed != [] && s.holder.None?
    ensures Exec(s, [SubmitFails(id, rpc), Restore(id)]) == Some(t)
    ensures t.utxos == s.utxos + AsMap(s.pcs[id].removed)
    ensures t.dirty == s.dirty && t.pcs == s.pcs[id := Failed(rpc)] && t.holder.None? && t.log != []
  {
    var a := SubmitFails(id, rpc);
    t := Step(Step(s, a), Restore(id));
    TwoSteps(s, a, Restore(id));
  }

  lemma RestoreIsRun(s: State, id: nat, rpc: bool) returns (acts: seq<Action>, t: State)
    requires s.log != [] && id in s.pcs && s.pcs[id].Submitting? && s.holder.None?
    ensures Exec(s, acts) == Some(t)
    ensures t.utxos == s.utxos + AsMap(s.pcs[id].removed)
    ensures t.dirty == (s.dirty || rpc) && t.pcs == s.pcs - {id} && t.holder.None?
  {
    if s.pcs[id].removed == [] {
      acts, t := NothingToRestore(s, id, rpc);
      assert s.utxos + map[] == s.utxos;
    } else {
      var u := SomeToRestore(s, id, rpc);
      t := FailIsRun(u, id, rpc);
      acts := [SubmitFails(id, rpc), Restore(id)] + [Finish(id)];
      ExecThen(s, [SubmitFails(id, rpc), Restore(id)], [Finish(id)]);
      assert u.pcs - {id} == s.pcs - {id};
    }
  }

  lemma SubmitIsRun(s: State, id: nat, draft: seq<OutPoint>, submission: Result<string, SdkError>)
    returns (acts: seq<Action>, t: State)
    requires s.log != [] && id in s.pcs && s.pcs[id].Selecting? && s.holder == Some(id)
    ensures Exec(s, acts) == Some(t) && t.pcs == s.pcs - {id} && t.holder.None?
    ensures t.utxos == if submission.Ok? then s.utxos - KeysOf(draft) else s.utxos
    ensures t.dirty == (s.dirty || (submission.Err? && submission.error.NearRpcError?))
  {
    var a := Select(id, draft);
    var s1 := Step(s, a);
    OneStep(s, a);
    assert s1.pcs[id] == Submitting(draft, Taken(s.utxos, draft));
    if submission.Ok? {
      var b := SubmitSucceeds(id);
      t := Step(s1, b);
      OneStep(s1, b);
      acts := [a] + [b];
      ExecThen(s, [a], [b]);
    } else {
      var more;
      more, t := RestoreIsRun(s1, id, submission.error.NearRpcError?);
      acts := [a] + more;
      ExecThen(s, [a], more);
      RestoreUndoesTake(s.utxos, draft);
    }
    assert t.pcs == s.pcs - {id};
  }

  lemma SelectionFailsIsRun(s: State, id: nat, rpc: bool) returns (acts: seq<Action>, t: State)
    requires s.log != [] && id in s.pcs && s.pcs[id].Selecting? && s.holder == Some(id)
    ensures Exec(s, acts) == Some(t) && t.pcs == s.pcs - {id} && t.holder.None?
    ensures t.utxos == s.utxos && t.dirty == (s.dirty || rpc)
  {
    var a := SelectFails(id, rpc);
    var s1 := Step(s, a);
    OneStep(s, a);
    t := FailIsRun(s1, id, rpc);
    acts := [a] + [Finish(id)];
    ExecThen(s, [a], [Finish(id)]);
    assert s1.pcs - {id} == s.pcs - {id};
  }

  /**
   * `UtxoCache.UtxoSet.SubmitTransfer` as the protocol sees it: from any state with a free guard there is a run of
   * one new submitter that changes cache and flag exactly as the method does and leaves everybody else alone.
   */
  lemma TransferIsRun(s: State, id: nat, answered: bool, selection: Result<seq<OutPoint>, SdkError>,
                      submission: Result<string, SdkError>) returns (acts: seq<Action>, t: State)
    requires s.log != [] && id !in s.pcs && s.holder.None?
    ensures Exec(s, acts) == Some(t) && t.pcs == s.pcs && t.holder.None?
    ensures var answer := if answered then Some(Now(s)) else None;
            && t.utxos == UtxosAfter(s.utxos, s.dirty, answer, selection, submission)
            && t.dirty == DirtyAfter(s.dirty, answer, selection, submission)
  {
    var first, u := AcquireIsRun(s, id, answered);
    var rest;
    if selection.Ok? {
      rest, t := SubmitIsRun(u, id, selection.value, submission);
    } else {
      rest, t := SelectionFailsIsRun(u, id, selection.error.NearRpcError?);
    }
    acts := first + rest;
    ExecThen(s, first, rest);
    assert t.pcs == s.pcs;
  }
}
