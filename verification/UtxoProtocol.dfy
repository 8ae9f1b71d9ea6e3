/**
 * Concurrent submitters sharing one chain's UTXO cache: every interleaving of the atomic stretches of
 * `UtxoSet::lock`, `take_outpoints`, `restore_outpoints`, `mark_dirty` (omni-relayer/src/utils/utxo.rs) and
 * `process_transfer_to_utxo_event` (omni-relayer/src/workers/near.rs), while the contract's own set changes.
 */
module UtxoProtocol {
  import opened Wrappers
  import opened UtxoCache

  /** Where a submitter stands. It holds the guard while `Fetching` and `Selecting`. */
  datatype Pc =
    | Waiting
    | Fetching(swapAt: nat)
    | Selecting
    | Submitting(draft: seq<OutPoint>, removed: seq<Entry>)
    | Restoring(removed: seq<Entry>, rpcError: bool)
    | Failed(rpcError: bool)

  /**
   * The shared state, and a record of the past: `log[t]` is the contract's set after `t` steps, `base` the set
   * the last refresh installed, read at step `readAt` by a fetch that cleared the flag at step `swapAt`;
   * `markAt` is the step of the latest mark, `spent` what successful submits took since the last refresh and
   * `used` what they drafted. `clean` says that no outpoint was held at that refresh; `backed` that no draft was
   * under way either and every draft since was selected from what was cached.
   */
  datatype State = State(
    utxos: Cache, dirty: bool, holder: Option<nat>, pcs: map<nat, Pc>,
    log: seq<Cache>, base: Cache, swapAt: nat, readAt: nat, markAt: nat, spent: Cache, used: set<string>,
    clean: bool, backed: bool)

  datatype Action =
    | Begin(id: nat)
    | Acquire(id: nat)
    | Answer(id: nat, read: Option<nat>)
    | Select(id: nat, draft: seq<OutPoint>)
    | SelectFails(id: nat, rpc: bool)
    | SubmitSucceeds(id: nat)
    | SubmitFails(id: nat, rpc: bool)
    | Restore(id: nat)
    | Finish(id: nat)
    | Mark
    | ContractMoves(utxos: Cache)

  function Init(contract: Cache): State {
    State(map[], true, None, map[], [contract], map[], 0, 0, 0, map[], {}, true, true)
  }

  predicate Enabled(s: State, a: Action) {
    match a
    case Begin(id) => id !in s.pcs
    case Acquire(id) => id in s.pcs && s.pcs[id].Waiting? && s.holder.None?
    case Answer(id, read) =>
      id in s.pcs && s.pcs[id].Fetching? && (read.Some? ==> s.pcs[id].swapAt <= read.value < |s.log|)
    case Select(id, _) => id in s.pcs && s.pcs[id].Selecting?
    case SelectFails(id, _) => id in s.pcs && s.pcs[id].Selecting?
    case SubmitSucceeds(id) => id in s.pcs && s.pcs[id].Submitting?
    case SubmitFails(id, _) => id in s.pcs && s.pcs[id].Submitting?
    case Restore(id) => id in s.pcs && s.pcs[id].Restoring? && s.holder.None?
    case Finish(id) => id in s.pcs && s.pcs[id].Failed?
    case Mark => true
    case ContractMoves(_) => true
  }

  function Now(s: State): Cache
    requires s.log != []
  {
    s.log[|s.log| - 1]
  }

  predicate BySubmitter(a: Action) { !a.Mark? && !a.ContractMoves? }

  /** Where the acting submitter stands afterwards; `None` when it is done. */
  function NextPc(s: State, a: Action): Option<Pc>
    requires Enabled(s, a) && BySubmitter(a)
  {
    match a
    case Begin(_) => Some(Waiting)
    case Acquire(_) => Some(if s.dirty then Fetching(|s.log|) else Selecting)
    case Answer(_, _) => Some(Selecting)
    case Select(_, draft) => Some(Submitting(draft, Taken(s.utxos, draft)))
    case SelectFails(_, rpc) => Some(Failed(rpc))
    case SubmitSucceeds(_) => None
    case SubmitFails(id, rpc) =>
      Some(if s.pcs[id].removed == [] then Failed(rpc) else Restoring(s.pcs[id].removed, rpc))
    case Restore(id) => Some(Failed(s.pcs[id].rpcError))
    case Finish(_) => None
  }

  function SetPc(pcs: map<nat, Pc>, id: nat, pc: Option<Pc>): map<nat, Pc> {
    if pc.Some? then pcs[id := pc.value] else pcs - {id}
  }

  /** The effect of an action on what the submitters share. */
  function Shared(s: State, a: Action): State
    requires Enabled(s, a)
  {
    match a
    case Acquire(id) => s.(dirty := false, holder := Some(id))
    case Answer(_, None) => s.(dirty := true)
    case Answer(id, Some(read)) =>
      s.(utxos := s.log[read], base := s.log[read], swapAt := s.pcs[id].swapAt, readAt := read,
         spent := map[], used := {}, clean := NothingInFlight(s), backed := NothingInFlight(s) && NothingClaimed(s))
    case Select(_, draft) =>
      s.(utxos := s.utxos - KeysOf(draft), holder := None, backed := s.backed && KeysOf(draft) <= s.utxos.Keys)
    case SelectFails(_, _) => s.(holder := None)
    case SubmitSucceeds(id) =>
      s.(spent := s.spent + AsMap(s.pcs[id].removed), used := s.used + KeysOf(s.pcs[id].draft))
    case Restore(id) => s.(utxos := s.utxos + AsMap(s.pcs[id].removed))
    case Finish(id) => if s.pcs[id].rpcError then s.(dirty := true, markAt := |s.log|) else s
    case Mark => s.(dirty := true, markAt := |s.log|)
    case _ => s
  }

  /** An atomic step; time passes, and the contract's set is recorded. */
  function Step(s: State, a: Action): State
    requires s.log != [] && Enabled(s, a)
  {
    var contract := if a.ContractMoves? then a.utxos else Now(s);
    var pcs := if BySubmitter(a) then SetPc(s.pcs, a.id, NextPc(s, a)) else s.pcs;
    Shared(s, a).(pcs := pcs, log := s.log + [contract])
  }

  /** Runs a schedule; `None` when some step of it cannot happen. */
  function Exec(s: State, acts: seq<Action>): Option<State>
    decreases |acts|
  {
    if acts == [] then Some(s)
    else if s.log != [] && Enabled(s, acts[0]) then Exec(Step(s, acts[0]), acts[1..])
    else None
  }

  // ----- What is in flight -----

  /** The outpoints a submitter took out of the cache and has neither spent nor restored. */
  function Held(pc: Pc): Cache {
    if pc.Submitting? || pc.Restoring? then AsMap(pc.removed) else map[]
  }

  predicate NothingInFlight(s: State) {
    forall id | id in s.pcs :: Held(s.pcs[id]) == map[]
  }

  /**
   * The outpoints a submitter is about to spend, cached or not: the SDK drafts from the contract's own set when it
   * is handed an empty snapshot, and outpoints that are not cached are not taken but submitted all the same.
   */
  function Claimed(pc: Pc): set<string> {
    match pc
    case Submitting(draft, _) => KeysOf(draft)
    case Restoring(removed, _) => AsMap(removed).Keys
    case _ => {}
  }

  predicate NothingClaimed(s: State) {
    forall id | id in s.pcs :: Claimed(s.pcs[id]) == {}
  }

  /** Where outpoints are: cached, spent, or held by a submitter; `base` is what the last refresh installed. */
  datatype Ledger = Ledger(utxos: Cache, spent: Cache, held: map<nat, Cache>, base: Cache)

  function LedgerOf(s: State): Ledger {
    Ledger(s.utxos, s.spent, map id | id in s.pcs :: Held(s.pcs[id]), s.base)
  }

  predicate Within(part: Cache, whole: Cache) {
    forall k | k in part :: k in whole && part[k] == whole[k]
  }

  predicate Holds(held: map<nat, Cache>, i: nat, k: string) { i in held && k in held[i] }

  ghost predicate Placed(l: Ledger, k: string) {
    k in l.utxos || k in l.spent || exists i :: Holds(l.held, i, k)
  }

  /** Every outpoint of `base` is in exactly one place with its value unchanged, and no other outpoint is anywhere. */
  ghost predicate Balanced(l: Ledger) {
    && Within(l.utxos, l.base) && Within(l.spent, l.base)
    && (forall i, k :: Holds(l.held, i, k) ==> k in l.base && l.held[i][k] == l.base[k])
    && (forall k :: k in l.utxos ==> k !in l.spent)
    && (forall i, k :: Holds(l.held, i, k) ==> k !in l.utxos && k !in l.spent)
    && (forall i, j, k :: Holds(l.held, i, k) && Holds(l.held, j, k) ==> i == j)
    && (forall k :: k in l.base ==> Placed(l, k))
  }

  /**
   * Conservation: the cache, what each submitter has in flight and what was spent are pairwise disjoint, and
   * together they are the set the last refresh installed, values unchanged.
   */
  ghost predicate Conserved(s: State) { Balanced(LedgerOf(s)) }

  lemma TakeKeepsBalance(l: Ledger, id: nat, keys: set<string>)
    requires Balanced(l) && id in l.held && l.held[id] == map[]
    ensures Balanced(l.(utxos := l.utxos - keys, held := l.held[id := Restrict(l.utxos, keys)]))
  {
    var t := l.(utxos := l.utxos - keys, held := l.held[id := Restrict(l.utxos, keys)]);
    assert forall i, k :: Holds(t.held, i, k) <==> if i == id then k in l.utxos && k in keys else Holds(l.held, i, k);
    forall k | k in t.base ensures Placed(t, k) {
      assert Placed(l, k);
      if k in l.utxos && k in keys {
        assert Holds(t.held, id, k);
      } else if k !in l.utxos && k !in l.spent {
        var i :| Holds(l.held, i, k);
        assert Holds(t.held, i, k);
      }
    }
  }

  lemma SpendKeepsBalance(l: Ledger, id: nat)
    requires Balanced(l) && id in l.held
    ensures Balanced(l.(spent := l.spent + l.held[id], held := l.held - {id}))
  {
    var t := l.(spent := l.spent + l.held[id], held := l.held - {id});
    assert forall i, k :: Holds(t.held, i, k) <==> i != id && Holds(l.held, i, k);
    assert forall k :: k in t.spent <==> k in l.spent || Holds(l.held, id, k);
    forall k | k in t.base ensures Placed(t, k) {
      assert Placed(l, k);
      if k !in t.utxos && k !in t.spent {
        var i :| Holds(l.held, i, k);
        assert Holds(t.held, i, k);
      }
    }
  }

  lemma ReturnKeepsBalance(l: Ledger, id: nat)
    requires Balanced(l) && id in l.held
    ensures Balanced(l.(utxos := l.utxos + l.held[id], held := l.held[id := map[]]))
  {
    var t := l.(utxos := l.utxos + l.held[id], held := l.held[id := map[]]);
    assert forall i, k :: Holds(t.held, i, k) <==> i != id && Holds(l.held, i, k);
    assert forall k :: k in t.utxos <==> k in l.utxos || Holds(l.held, id, k);
    forall k | k in t.base ensures Placed(t, k) {
      assert Placed(l, k);
      if k !in t.utxos && k !in t.spent {
        var i :| Holds(l.held, i, k);
        assert Holds(t.held, i, k);
      }
    }
  }

  /** Submitters with nothing in hand may come and go. */
  lemma IdleKeepsBalance(l: Ledger, held: map<nat, Cache>)
    requires Balanced(l)
    requires forall i, k :: Holds(held, i, k) <==> Holds(l.held, i, k)
    requires forall i, k :: Holds(held, i, k) ==> held[i][k] == l.held[i][k]
    ensures Balanced(l.(held := held))
  {
    var t := l.(held := held);
    forall k | k in t.base ensures Placed(t, k) {
      assert Placed(l, k);
      if k !in l.utxos && k !in l.spent {
        var i :| Holds(l.held, i, k);
        assert Holds(t.held, i, k);
      }
    }
  }

  predicate Guards(pc: Pc) { pc.Fetching? || pc.Selecting? }

  /** The mutex: the guard is held by the one submitter that is fetching or selecting. */
  predicate Exclusive(s: State) {
    && (s.holder.Some? ==> s.holder.value in s.pcs && Guards(s.pcs[s.holder.value]))
    && (forall id | id in s.pcs && Guards(s.pcs[id]) :: s.holder == Some(id))
  }

  predicate IsRefresh(a: Action) { a.Answer? && a.read.Some? }

  /** The whole effect of a selection. */
  lemma SelectEffect(s: State, id: nat, draft: seq<OutPoint>)
    requires s.log != [] && Enabled(s, Select(id, draft))
    ensures var t := Step(s, Select(id, draft));
            && t.pcs == s.pcs[id := Submitting(draft, Taken(s.utxos, draft))] && t.utxos == s.utxos - KeysOf(draft)
            && t.holder.None? && t.log == s.log + [Now(s)] && t.base == s.base && t.spent == s.spent && t.used == s.used
            && t.dirty == s.dirty && t.clean == s.clean && t.backed == (s.backed && KeysOf(draft) <= s.utxos.Keys)
  {
  }

  lemma SelectTakes(s: State, id: nat, draft: seq<OutPoint>)
    requires s.log != [] && Enabled(s, Select(id, draft))
    ensures var l, t := LedgerOf(s), LedgerOf(Step(s, Select(id, draft)));
            && id in l.held && l.held[id] == map[]
            && t == l.(utxos := l.utxos - KeysOf(draft), held := l.held[id := Restrict(l.utxos, KeysOf(draft))])
  {
    var l, t := LedgerOf(s), LedgerOf(Step(s, Select(id, draft)));
    SelectEffect(s, id, draft);
    TakenIsRestriction(s.utxos, draft);
    assert t.held == l.held[id := Restrict(l.utxos, KeysOf(draft))];
  }

  lemma SelectConserves(s: State, id: nat, draft: seq<OutPoint>)
    requires s.log != [] && Enabled(s, Select(id, draft)) && Conserved(s)
    ensures Conserved(Step(s, Select(id, draft)))
  {
    SelectTakes(s, id, draft);
    TakeKeepsBalance(LedgerOf(s), id, KeysOf(draft));
  }

  lemma SubmitConserves(s: State, id: nat)
    requires s.log != [] && Enabled(s, SubmitSucceeds(id)) && Conserved(s)
    ensures Conserved(Step(s, SubmitSucceeds(id)))
  {
    var l, t := LedgerOf(s), LedgerOf(Step(s, SubmitSucceeds(id)));
    SpendKeepsBalance(l, id);
    assert t.held == l.held - {id};
  }

  lemma RestoreConserves(s: State, id: nat)
    requires s.log != [] && Enabled(s, Restore(id)) && Conserved(s)
    ensures Conserved(Step(s, Restore(id)))
  {
    var l, t := LedgerOf(s), LedgerOf(Step(s, Restore(id)));
    ReturnKeepsBalance(l, id);
    assert t.held == l.held[id := map[]];
  }

  function HeldAt(s: State, i: nat): Cache { if i in s.pcs then Held(s.pcs[i]) else map[] }

  lemma SameHoldingsConserve(s: State, t: State)
    requires Conserved(s)
    requires t.utxos == s.utxos && t.spent == s.spent && t.base == s.base
    requires forall i :: HeldAt(t, i) == HeldAt(s, i)
    ensures Conserved(t)
  {
    var l, m := LedgerOf(s), LedgerOf(t);
    forall i, k ensures Holds(m.held, i, k) <==> Holds(l.held, i, k)
                ensures Holds(m.held, i, k) ==> m.held[i][k] == l.held[i][k]
    {
      assert HeldAt(t, i) == HeldAt(s, i);
    }
    IdleKeepsBalance(l, m.held);
    assert m == l.(held := m.held);
  }

  lemma OtherStepsHold(s: State, a: Action, i: nat)
    requires s.log != [] && Enabled(s, a)
    requires !a.Select? && !a.SubmitSucceeds? && !a.Restore?
    ensures HeldAt(Step(s, a), i) == HeldAt(s, i)
  {
    if a.SubmitFails? { AsMapEmpty(s.pcs[a.id].removed); }
  }

  lemma OtherStepsShare(s: State, a: Action)
    requires s.log != [] && Enabled(s, a)
    requires !IsRefresh(a) && !a.Select? && !a.SubmitSucceeds? && !a.Restore?
    ensures var t := Step(s, a); t.utxos == s.utxos && t.spent == s.spent && t.base == s.base
  {
  }

  /** Steps that move no outpoint. */
  lemma OtherStepsConserve(s: State, a: Action)
    requires s.log != [] && Enabled(s, a) && Conserved(s)
    requires !IsRefresh(a) && !a.Select? && !a.SubmitSucceeds? && !a.Restore?
    ensures Conserved(Step(s, a))
  {
    var t := Step(s, a);
    OtherStepsShare(s, a);
    forall i ensures HeldAt(t, i) == HeldAt(s, i) { OtherStepsHold(s, a, i); }
    SameHoldingsConserve(s, t);
  }

  lemma StepConserves(s: State, a: Action)
    requires s.log != [] && Enabled(s, a) && Conserved(s) && !IsRefresh(a)
    ensures Conserved(Step(s, a))
  {
    match a
    case Select(id, draft) => SelectConserves(s, id, draft);
    case SubmitSucceeds(id) => SubmitConserves(s, id);
    case Restore(id) => RestoreConserves(s, id);
    case _ => OtherStepsConserve(s, a);
  }

  /**
   * UTXO conservation: once it holds, it holds after every schedule of submitters, marks and contract moves
   * until the next refresh.
   */
  lemma {:induction false} ConservedUntilNextRefresh(s: State, acts: seq<Action>)
    requires s.log != [] && Conserved(s)
    requires forall i :: 0 <= i < |acts| ==> !IsRefresh(acts[i])
    requires Exec(s, acts).Some?
    ensures Conserved(Exec(s, acts).value) && Exec(s, acts).value.base == s.base
    decreases |acts|
  {
    if acts != [] {
      StepConserves(s, acts[0]);
      ConservedUntilNextRefresh(Step(s, acts[0]), acts[1..]);
    }
  }

  lemma RefreshLedger(s: State, a: Action)
    requires s.log != [] && Enabled(s, a) && IsRefresh(a)
    ensures var l, t := LedgerOf(s), LedgerOf(Step(s, a)); t.held == l.held && t.utxos == t.base && t.spent == map[]
  {
    assert LedgerOf(Step(s, a)).held == LedgerOf(s).held;
  }

  /** A refresh starts a conserving epoch exactly when nothing is in flight at that moment. */
  lemma RefreshConservesIff(s: State, a: Action)
    requires s.log != [] && Enabled(s, a) && IsRefresh(a)
    ensures Conserved(Step(s, a)) <==> NothingInFlight(s)
  {
    var l, t := LedgerOf(s), LedgerOf(Step(s, a));
    RefreshLedger(s, a);
    if NothingInFlight(s) {
      assert forall i, k :: !Holds(t.held, i, k);
      assert forall k :: k in t.base ==> Placed(t, k);
    } else {
      var i :| i in s.pcs && Held(s.pcs[i]) != map[];
      var k :| k in Held(s.pcs[i]);
      assert Holds(t.held, i, k);
    }
  }

  /**
   * The family that fails: whatever another submitter has in flight and the contract still lists is put back
   * into the cache by a refresh, and the refreshing submitter can take it a second time.
   */
  lemma RefreshExposesInFlight(s: State, other: nat, id: nat, read: nat, op: OutPoint)
    requires s.log != [] && Enabled(s, Answer(id, Some(read)))
    requires other in s.pcs && other != id && OutPointKey(op) in Held(s.pcs[other]) && OutPointKey(op) in s.log[read]
    ensures Exec(s, [Answer(id, Some(read)), Select(id, [op])]).Some?
    ensures var t := Exec(s, [Answer(id, Some(read)), Select(id, [op])]).value;
            && id in t.pcs && other in t.pcs
            && OutPointKey(op) in Held(t.pcs[id]) && OutPointKey(op) in Held(t.pcs[other])
  {
    var a, b := Answer(id, Some(read)), Select(id, [op]);
    RefreshEffect(s, id, read);
    var refreshed := Step(s, a);
    SelectEffect(refreshed, id, [op]);
    TakesOne(refreshed.utxos, op);
    ExecCons(refreshed, b, []);
    ExecCons(s, a, [b]);
    assert [a] + [b] == [a, b] && [b] + [] == [b];
  }

  lemma RefreshEffect(s: State, id: nat, read: nat)
    requires s.log != [] && Enabled(s, Answer(id, Some(read)))
    ensures var t := Step(s, Answer(id, Some(read)));
            t.pcs == s.pcs[id := Selecting] && t.utxos == s.log[read] && t.log == s.log + [Now(s)]
  {
  }

  /** A schedule from the start in which two submitters hold the same outpoint. */
  lemma TwoSubmittersShareAnOutPoint(op: OutPoint, utxo: Utxo) returns (acts: seq<Action>)
    ensures var end := Exec(Init(map[OutPointKey(op) := utxo]), acts);
            && end.Some? && 1 in end.value.pcs && 2 in end.value.pcs
            && OutPointKey(op) in Held(end.value.pcs[1]) && OutPointKey(op) in Held(end.value.pcs[2])
  {
    var contract := map[OutPointKey(op) := utxo];
    var first := [Begin(1), Acquire(1), Answer(1, Some(2)), Select(1, [op])];
    var second := [Begin(2), Mark, Acquire(2)];
    var last := [Answer(2, Some(7)), Select(2, [op])];
    var s := FirstSubmitter(op, contract);
    var t := SecondSubmitterRefreshes(op, s, contract);
    RefreshExposesInFlight(t, 1, 2, 7, op);
    acts := first + (second + last);
    ExecThen(Init(contract), first, second + last);
    ExecThen(s, second, last);
  }

  lemma FirstSubmitter(op: OutPoint, contract: Cache) returns (s: State)
    requires OutPointKey(op) in contract
    ensures Exec(Init(contract), [Begin(1), Acquire(1), Answer(1, Some(2)), Select(1, [op])]) == Some(s)
    ensures s.holder.None? && s.pcs.Keys == {1} && OutPointKey(op) in Held(s.pcs[1]) && s.pcs[1].Submitting?
    ensures OutPointKey(op) in Claimed(s.pcs[1]) && !s.dirty && s.clean && OutPointKey(op) !in s.utxos
    ensures s.log == [contract, contract, contract, contract, contract]
  {
    var acquire, take := [Begin(1), Acquire(1)], [Answer(1, Some(2)), Select(1, [op])];
    var acquired := FirstAcquires(contract);
    s := FirstTakes(op, acquired, contract);
    ExecThen(Init(contract), acquire, take);
    assert acquire + take == [Begin(1), Acquire(1), Answer(1, Some(2)), Select(1, [op])];
  }

  lemma FirstTakes(op: OutPoint, s: State, contract: Cache) returns (t: State)
    requires OutPointKey(op) in contract
    requires s.log == [contract, contract, contract] && s.pcs == map[1 := Fetching(2)] && s.holder == Some(1) && !s.dirty
    ensures Exec(s, [Answer(1, Some(2)), Select(1, [op])]) == Some(t)
    ensures t.holder.None? && t.pcs.Keys == {1} && OutPointKey(op) in Held(t.pcs[1]) && t.pcs[1].Submitting?
    ensures OutPointKey(op) in Claimed(t.pcs[1]) && !t.dirty && t.clean && OutPointKey(op) !in t.utxos
    ensures t.log == [contract, contract, contract, contract, contract]
  {
    var c, d := Answer(1, Some(2)), Select(1, [op]);
    var refreshed := FirstRefreshes(s, contract);
    t := SelectsOne(refreshed, 1, op);
    ExecCons(refreshed, d, []);
    ExecCons(s, c, [d]);
    assert [c] + [d] == [c, d] && [d] + [] == [d];
  }

  lemma FirstRefreshes(s: State, contract: Cache) returns (t: State)
    requires s.log == [contract, contract, contract] && s.pcs == map[1 := Fetching(2)] && s.holder == Some(1) && !s.dirty
    ensures Enabled(s, Answer(1, Some(2))) && t == Step(s, Answer(1, Some(2)))
    ensures t.log == [contract, contract, contract, contract] && t.pcs == map[1 := Selecting] && t.utxos == contract
    ensures !t.dirty && t.clean
  {
    t := Step(s, Answer(1, Some(2)));
  }

  lemma KeyOfOne(op: OutPoint)
    ensures KeysOf([op]) == {OutPointKey(op)}
  {
    KeysOfOneMore([], op);
    assert [] + [op] == [op];
  }

  lemma TakesOne(utxos: Cache, op: OutPoint)
    requires OutPointKey(op) in utxos
    ensures OutPointKey(op) in AsMap(Taken(utxos, [op]))
  {
    TakenIsRestriction(utxos, [op]);
    KeyOfOne(op);
  }

  lemma SelectsOne(s: State, id: nat, op: OutPoint) returns (t: State)
    requires s.log != [] && s.pcs == map[id := Selecting] && OutPointKey(op) in s.utxos
    ensures Enabled(s, Select(id, [op])) && t == Step(s, Select(id, [op]))
    ensures t.holder.None? && t.pcs.Keys == {id} && OutPointKey(op) in Held(t.pcs[id]) && t.pcs[id].Submitting?
    ensures OutPointKey(op) in Claimed(t.pcs[id]) && OutPointKey(op) !in t.utxos
    ensures t.log == s.log + [Now(s)] && t.dirty == s.dirty && t.clean == s.clean
  {
    t := Step(s, Select(id, [op]));
    SelectEffect(s, id, [op]);
    assert t.pcs.Keys == {id} && t.pcs[id] == Submitting([op], Taken(s.utxos, [op]));
    TakesOne(s.utxos, op);
    KeyOfOne(op);
  }

  lemma FirstAcquires(contract: Cache) returns (s: State)
    ensures Exec(Init(contract), [Begin(1), Acquire(1)]) == Some(s)
    ensures s.log == [contract, contract, contract] && s.pcs == map[1 := Fetching(2)] && s.holder == Some(1) && !s.dirty
  {
    var a, b := Begin(1), Acquire(1);
    var s1 := Step(Init(contract), a);
    s := Step(s1, b);
    ExecCons(s1, b, []);
    ExecCons(Init(contract), a, [b]);
    assert [a] + [b] == [a, b] && [b] + [] == [b];
  }

  lemma SecondSubmitterRefreshes(op: OutPoint, s: State, contract: Cache) returns (t: State)
    requires s.holder.None? && s.pcs.Keys == {1} && OutPointKey(op) in contract && OutPointKey(op) in Held(s.pcs[1])
    requires s.log == [contract, contract, contract, contract, contract]
    ensures Exec(s, [Begin(2), Mark, Acquire(2)]) == Some(t)
    ensures t.log != [] && Enabled(t, Answer(2, Some(7))) && t.log[7] == contract
    ensures 1 in t.pcs && t.pcs[1] == s.pcs[1]
  {
    var a, b, c := Begin(2), Mark, Acquire(2);
    assert 2 !in s.pcs.Keys;
    var s1 := Step(s, a);
    var s2 := Step(s1, b);
    t := Step(s2, c);
    ExecCons(s2, c, []);
    ExecCons(s1, b, [c]);
    ExecCons(s, a, [b, c]);
    assert [a] + [b, c] == [a, b, c] && [b] + [c] == [b, c] && [c] + [] == [c];
  }

  lemma ExecCons(s: State, a: Action, rest: seq<Action>)
    requires s.log != [] && Enabled(s, a)
    ensures Exec(s, [a] + rest) == Exec(Step(s, a), rest)
  {
    assert ([a] + rest)[1..] == rest;
  }

  lemma {:induction false} ExecThen(s: State, acts: seq<Action>, more: seq<Action>)
    requires Exec(s, acts).Some?
    ensures Exec(s, acts + more) == Exec(Exec(s, acts).value, more)
    decreases |acts|
  {
    if acts == [] {
      assert acts + more == more;
    } else {
      var a, rest := acts[0], acts[1..];
      assert acts == [a] + rest && acts + more == [a] + (rest + more);
      ExecThen(Step(s, a), rest, more);
      ExecCons(s, a, rest);
      ExecCons(s, a, rest + more);
    }
  }

  // ----- Drafts -----

  /** Every draft under way or submitted consists of what was taken for it. */
  predicate Backed(s: State) {
    s.used == s.spent.Keys && forall id | id in s.pcs :: Claimed(s.pcs[id]) == Held(s.pcs[id]).Keys
  }

  /** The draft names an outpoint that another submitter is about to spend, or that was spent since the refresh. */
  predicate Collides(s: State, draft: seq<OutPoint>) {
    exists k | k in KeysOf(draft) :: k in s.used || exists j | j in s.pcs :: k in Claimed(s.pcs[j])
  }

  /** An outpoint of the last refresh that is no longer in the cache. */
  predicate Gone(s: State, k: string) { k in s.base && k !in s.utxos }

  /** Whatever is held is claimed, and whatever was spent was drafted. */
  predicate Covered(s: State) {
    s.spent.Keys <= s.used && forall id | id in s.pcs :: Held(s.pcs[id]).Keys <= Claimed(s.pcs[id])
  }

  /** A draft names the outpoint although it was not cached when that was selected. */
  predicate Unseen(s: State, k: string) {
    || (k in s.used && k !in s.spent)
    || exists j | j in s.pcs :: k in Claimed(s.pcs[j]) && k !in Held(s.pcs[j])
  }

  lemma GoneIffTaken(s: State, k: string)
    requires Conserved(s)
    ensures Gone(s, k) <==> k in s.spent || exists j | j in s.pcs :: k in Held(s.pcs[j])
  {
    var l := LedgerOf(s);
    if Gone(s, k) {
      assert Placed(l, k);
      if k !in s.spent {
        var j :| Holds(l.held, j, k);
        assert k in Held(s.pcs[j]);
      }
    } else {
      assert forall j | j in s.pcs :: k in Held(s.pcs[j]) <==> Holds(l.held, j, k);
    }
  }

  /**
   * Double spending, exactly, in every state of a clean epoch: a draft collides if and only if it names an outpoint of
   * the last refresh that is not cached any more, or one that an earlier draft named without its being cached.
   */
  lemma CollidesIff(s: State, draft: seq<OutPoint>)
    requires Conserved(s) && Covered(s)
    ensures Collides(s, draft) <==> exists k | k in KeysOf(draft) :: Gone(s, k) || Unseen(s, k)
  {
    forall k | k in KeysOf(draft)
      ensures Gone(s, k) || Unseen(s, k) <==> k in s.used || exists j | j in s.pcs :: k in Claimed(s.pcs[j])
    {
      GoneIffTaken(s, k);
      if Gone(s, k) && k !in s.spent {
        var j :| j in s.pcs && k in Held(s.pcs[j]);
        assert k in Claimed(s.pcs[j]);
      }
    }
  }

  /** Drafts selected from the cache leave nothing unseen. */
  lemma BackedIsSeen(s: State, k: string)
    requires Backed(s)
    ensures Covered(s) && !Unseen(s, k)
  {
  }

  /**
   * For an SDK that leaves the snapshot only when it is empty: a draft collides if and only if the cache is empty and
   * the draft names an outpoint of the last refresh, or it names one that an earlier draft named unseen. As long as
   * drafts came from the cache, only the former can be.
   */
  lemma SnapshotCollidesIff(s: State, draft: seq<OutPoint>)
    requires Conserved(s) && Covered(s)
    requires s.utxos != map[] ==> KeysOf(draft) <= s.utxos.Keys
    ensures Collides(s, draft) <==>
            (s.utxos == map[] && KeysOf(draft) * s.base.Keys != {}) || exists k | k in KeysOf(draft) :: Unseen(s, k)
    ensures Backed(s) ==> !exists k | k in KeysOf(draft) :: Unseen(s, k)
  {
    CollidesIff(s, draft);
    if Backed(s) {
      forall k ensures !Unseen(s, k) { BackedIsSeen(s, k); }
    }
    if s.utxos == map[] {
      forall k | k in KeysOf(draft) ensures Gone(s, k) <==> k in KeysOf(draft) * s.base.Keys { }
    } else {
      forall k | k in KeysOf(draft) ensures !Gone(s, k) { }
    }
  }

  lemma SelectKeepsBacked(s: State, id: nat, draft: seq<OutPoint>)
    requires s.log != [] && Enabled(s, Select(id, draft)) && Backed(s) && KeysOf(draft) <= s.utxos.Keys
    ensures Backed(Step(s, Select(id, draft)))
  {
    var t := Step(s, Select(id, draft));
    SelectEffect(s, id, draft);
    TakenIsRestriction(s.utxos, draft);
    assert Held(t.pcs[id]).Keys == KeysOf(draft);
    forall i | i in t.pcs ensures Claimed(t.pcs[i]) == Held(t.pcs[i]).Keys {
      if i != id { assert t.pcs[i] == s.pcs[i]; }
    }
  }

  lemma SelectKeepsCovered(s: State, id: nat, draft: seq<OutPoint>)
    requires s.log != [] && Enabled(s, Select(id, draft)) && Covered(s)
    ensures Covered(Step(s, Select(id, draft)))
  {
    var t := Step(s, Select(id, draft));
    SelectEffect(s, id, draft);
    TakenIsRestriction(s.utxos, draft);
    forall i | i in t.pcs ensures Held(t.pcs[i]).Keys <= Claimed(t.pcs[i]) {
      if i != id { assert t.pcs[i] == s.pcs[i]; }
    }
  }

  lemma OthersKeepCovered(s: State, a: Action)
    requires s.log != [] && Enabled(s, a) && Covered(s) && !a.Select?
    ensures Covered(Step(s, a))
  {
    var t := Step(s, a);
    forall i | i in t.pcs ensures Held(t.pcs[i]).Keys <= Claimed(t.pcs[i]) {
      if BySubmitter(a) && a.id == i { assert t.pcs[i] == NextPc(s, a).value; } else { assert t.pcs[i] == s.pcs[i]; }
    }
    if a.SubmitSucceeds? { assert Held(s.pcs[a.id]).Keys <= Claimed(s.pcs[a.id]); }
  }

  lemma StepKeepsCovered(s: State, a: Action)
    requires s.log != [] && Enabled(s, a) && Covered(s)
    ensures Covered(Step(s, a))
  {
    if a.Select? { SelectKeepsCovered(s, a.id, a.draft); } else { OthersKeepCovered(s, a); }
  }

  lemma SubmitKeepsBacked(s: State, id: nat)
    requires s.log != [] && Enabled(s, SubmitSucceeds(id)) && Backed(s)
    ensures Backed(Step(s, SubmitSucceeds(id)))
  {
    var t := Step(s, SubmitSucceeds(id));
    assert Claimed(s.pcs[id]) == Held(s.pcs[id]).Keys;
    assert t.used == t.spent.Keys;
    forall i | i in t.pcs ensures Claimed(t.pcs[i]) == Held(t.pcs[i]).Keys { assert t.pcs[i] == s.pcs[i]; }
  }

  lemma OtherStepsKeepBacked(s: State, a: Action)
    requires s.log != [] && Enabled(s, a) && Backed(s)
    requires !IsRefresh(a) && !a.Select? && !a.SubmitSucceeds?
    ensures Backed(Step(s, a)) && Step(s, a).backed == s.backed
  {
    var t := Step(s, a);
    forall i | i in t.pcs ensures Claimed(t.pcs[i]) == Held(t.pcs[i]).Keys {
      if BySubmitter(a) && a.id == i { assert t.pcs[i] == NextPc(s, a).value; } else { assert t.pcs[i] == s.pcs[i]; }
    }
  }

  lemma RefreshIsBacked(s: State, a: Action)
    requires s.log != [] && Enabled(s, a) && IsRefresh(a)
    ensures Step(s, a).backed ==> Step(s, a).clean && Backed(Step(s, a))
  {
    var t := Step(s, a);
    forall i | i in t.pcs && t.backed ensures Claimed(t.pcs[i]) == Held(t.pcs[i]).Keys {
      if i == a.id { assert t.pcs[i] == Selecting; } else { assert t.pcs[i] == s.pcs[i]; }
    }
  }

  lemma StepKeepsBacked(s: State, a: Action)
    requires s.log != [] && Enabled(s, a)
    requires !IsRefresh(a) ==> s.backed && s.clean && Backed(s)
    ensures Step(s, a).backed ==> Step(s, a).clean && Backed(Step(s, a))
  {
    if IsRefresh(a) {
      RefreshIsBacked(s, a);
    } else if a.Select? {
      if KeysOf(a.draft) <= s.utxos.Keys { SelectKeepsBacked(s, a.id, a.draft); }
    } else if a.SubmitSucceeds? {
      SubmitKeepsBacked(s, a.id);
    } else {
      OtherStepsKeepBacked(s, a);
    }
  }

  /** Submitters about to spend an outpoint that the snapshot did not show. */
  lemma UnseenDraftIsShared(s: State, other: nat, id: nat, op: OutPoint)
    requires s.log != [] && Enabled(s, Select(id, [op])) && OutPointKey(op) !in s.utxos
    requires other in s.pcs && OutPointKey(op) in Claimed(s.pcs[other])
    ensures var t := Step(s, Select(id, [op]));
            && t.clean == s.clean && id != other && id in t.pcs && other in t.pcs
            && OutPointKey(op) in Claimed(t.pcs[id]) * Claimed(t.pcs[other])
  {
    assert OutPointKey([op][0]) in KeysOf([op]);
  }

  /**
   * A schedule from the start, with one refresh at which nothing is in flight: the first submitter takes the only
   * outpoint, the second gets an empty snapshot and drafts the same one from the contract.
   */
  lemma EmptySnapshotCollision(op: OutPoint, utxo: Utxo) returns (acts: seq<Action>)
    ensures var end := Exec(Init(map[OutPointKey(op) := utxo]), acts);
            && end.Some? && end.value.clean && 1 in end.value.pcs && 2 in end.value.pcs
            && end.value.pcs[1].Submitting? && end.value.pcs[2].Submitting?
            && OutPointKey(op) in Claimed(end.value.pcs[1]) * Claimed(end.value.pcs[2])
  {
    var contract := map[OutPointKey(op) := utxo];
    var first := [Begin(1), Acquire(1), Answer(1, Some(2)), Select(1, [op])];
    var s := FirstSubmitter(op, contract);
    var a, b, c := Begin(2), Acquire(2), Select(2, [op]);
    assert 2 !in s.pcs.Keys;
    var s1 := Step(s, a);
    var s2 := Step(s1, b);
    var t := Step(s2, c);
    UnseenDraftIsShared(s2, 1, 2, op);
    ExecCons(s2, c, []);
    ExecCons(s1, b, [c]);
    ExecCons(s, a, [b, c]);
    assert [a] + [b, c] == [a, b, c] && [b] + [c] == [b, c] && [c] + [] == [c];
    acts := first + [a, b, c];
    ExecThen(Init(contract), first, [a, b, c]);
  }

  // ----- Invalidation -----

  /** The flag and the record of marks and swaps agree, also while a fetch is under way. */
  predicate FreshOrMarked(s: State) {
    && s.log != [] && s.markAt < |s.log| && (s.swapAt == 0 || s.swapAt <= s.readAt < |s.log|)
    && (s.swapAt > 0 ==> s.base == s.log[s.readAt])
    && (forall id | id in s.pcs && s.pcs[id].Fetching? ::
          0 < s.pcs[id].swapAt < |s.log| && (!s.dirty ==> s.markAt < s.pcs[id].swapAt))
    && (!s.dirty && (forall id | id in s.pcs :: !s.pcs[id].Fetching?) ==> s.markAt < s.swapAt)
  }

  /** What every reachable state satisfies. */
  ghost predicate Inv(s: State) {
    && Exclusive(s) && FreshOrMarked(s) && Covered(s)
    && (s.clean ==> Conserved(s)) && (s.backed ==> s.clean && Backed(s))
  }

  lemma AcquireKeepsExclusive(s: State, id: nat)
    requires s.log != [] && Enabled(s, Acquire(id)) && Exclusive(s)
    ensures Exclusive(Step(s, Acquire(id)))
  {
    var t := Step(s, Acquire(id));
    assert t.holder == Some(id);
    assert forall i | i in s.pcs && i != id :: t.pcs[i] == s.pcs[i] && !Guards(s.pcs[i]);
  }

  lemma ReleaseKeepsExclusive(s: State, a: Action)
    requires s.log != [] && Enabled(s, a) && Exclusive(s) && (a.Select? || a.SelectFails?)
    ensures Exclusive(Step(s, a))
  {
    var t := Step(s, a);
    assert t.holder.None? && !Guards(t.pcs[a.id]);
    assert forall i | i in s.pcs && i != a.id :: t.pcs[i] == s.pcs[i] && !Guards(s.pcs[i]);
  }

  /** Steps that neither take nor release the guard. */
  lemma OthersKeepExclusive(s: State, a: Action)
    requires s.log != [] && Enabled(s, a) && Exclusive(s) && !a.Acquire? && !a.Select? && !a.SelectFails?
    ensures Exclusive(Step(s, a))
  {
    var t := Step(s, a);
    assert t.holder == s.holder;
    if BySubmitter(a) {
      assert forall i | i in t.pcs && i != a.id :: i in s.pcs && t.pcs[i] == s.pcs[i];
      assert a.id in t.pcs && Guards(t.pcs[a.id]) ==> a.id in s.pcs && Guards(s.pcs[a.id]);
    }
  }

  lemma StepKeepsExclusive(s: State, a: Action)
    requires s.log != [] && Enabled(s, a) && Exclusive(s)
    ensures Exclusive(Step(s, a))
  {
    match a
    case Acquire(id) => AcquireKeepsExclusive(s, id);
    case Select(_, _) => ReleaseKeepsExclusive(s, a);
    case SelectFails(_, _) => ReleaseKeepsExclusive(s, a);
    case _ => OthersKeepExclusive(s, a);
  }

  lemma StepKeepsFresh(s: State, a: Action)
    requires Enabled(s, a) && Exclusive(s) && FreshOrMarked(s)
    ensures FreshOrMarked(Step(s, a))
  {
    match a
    case Acquire(id) => AcquireKeepsFresh(s, id);
    case Answer(id, read) => AnswerKeepsFresh(s, id, read);
    case Mark => assert forall i | i in s.pcs && s.pcs[i].Fetching? :: s.pcs[i].swapAt < |s.log|;
    case ContractMoves(_) =>
    case _ => OtherStepsKeepFresh(s, a);
  }

  lemma AcquireKeepsFresh(s: State, id: nat)
    requires Enabled(s, Acquire(id)) && Exclusive(s) && FreshOrMarked(s)
    ensures FreshOrMarked(Step(s, Acquire(id)))
  {
    var t := Step(s, Acquire(id));
    assert forall i | i in s.pcs :: !s.pcs[i].Fetching?;
    assert forall i | i in t.pcs && t.pcs[i].Fetching? :: i == id && s.dirty;
    assert id in t.pcs;
  }

  lemma AnswerKeepsFresh(s: State, id: nat, read: Option<nat>)
    requires Enabled(s, Answer(id, read)) && Exclusive(s) && FreshOrMarked(s)
    ensures FreshOrMarked(Step(s, Answer(id, read)))
  {
    var t := Step(s, Answer(id, read));
    assert forall i | i in s.pcs && s.pcs[i].Fetching? :: i == id;
    assert forall i | i in t.pcs :: !t.pcs[i].Fetching?;
  }

  lemma OtherStepsTouchOne(s: State, a: Action)
    requires s.log != [] && Enabled(s, a) && BySubmitter(a) && !a.Acquire? && !a.Answer?
    ensures var t := Step(s, a);
            && (a.id in s.pcs ==> !s.pcs[a.id].Fetching?) && (a.id in t.pcs ==> !t.pcs[a.id].Fetching?)
            && (forall i | i != a.id :: i in t.pcs <==> i in s.pcs)
            && (forall i | i != a.id && i in s.pcs :: t.pcs[i] == s.pcs[i])
  {
  }

  lemma OtherStepsKeepRecord(s: State, a: Action)
    requires s.log != [] && Enabled(s, a) && BySubmitter(a) && !a.Acquire? && !a.Answer?
    requires s.markAt < |s.log|
    ensures var t := Step(s, a);
            && t.log == s.log + [Now(s)] && t.base == s.base && t.swapAt == s.swapAt && t.readAt == s.readAt
            && (t.dirty || (t.dirty == s.dirty && t.markAt == s.markAt)) && t.markAt < |t.log|
  {
  }

  /** Steps of submitters that are not fetching, neither before nor after. */
  lemma OtherStepsKeepFresh(s: State, a: Action)
    requires Enabled(s, a) && FreshOrMarked(s) && BySubmitter(a) && !a.Acquire? && !a.Answer?
    ensures FreshOrMarked(Step(s, a))
  {
    OtherStepsTouchOne(s, a);
    OtherStepsKeepRecord(s, a);
    SameFetchesKeepFresh(s, Step(s, a), a.id);
  }

  lemma SameFetchesKeepFresh(s: State, t: State, id: nat)
    requires FreshOrMarked(s) && |t.log| == |s.log| + 1 && s.log <= t.log
    requires t.base == s.base && t.swapAt == s.swapAt && t.readAt == s.readAt
    requires t.dirty || (t.dirty == s.dirty && t.markAt == s.markAt)
    requires t.markAt < |t.log|
    requires id in s.pcs ==> !s.pcs[id].Fetching?
    requires id in t.pcs ==> !t.pcs[id].Fetching?
    requires forall i | i != id :: i in t.pcs <==> i in s.pcs
    requires forall i | i != id && i in s.pcs :: t.pcs[i] == s.pcs[i]
    ensures FreshOrMarked(t)
  {
    forall i | i in t.pcs && t.pcs[i].Fetching? ensures i in s.pcs && t.pcs[i] == s.pcs[i] {
      assert i != id;
    }
    if !t.dirty && forall i | i in t.pcs :: !t.pcs[i].Fetching? {
      assert forall i | i in s.pcs :: !s.pcs[i].Fetching?;
    }
  }

  lemma StepKeepsInv(s: State, a: Action)
    requires Enabled(s, a) && Inv(s)
    ensures Inv(Step(s, a))
  {
    StepKeepsExclusive(s, a);
    StepKeepsFresh(s, a);
    StepKeepsCovered(s, a);
    if s.backed || IsRefresh(a) { StepKeepsBacked(s, a); }
    if IsRefresh(a) { RefreshConservesIff(s, a); } else if s.clean { StepConserves(s, a); }
  }

  lemma {:induction false} ExecKeepsInv(s: State, acts: seq<Action>)
    requires Inv(s) && Exec(s, acts).Some?
    ensures Inv(Exec(s, acts).value)
    decreases |acts|
  {
    if acts != [] {
      StepKeepsInv(s, acts[0]);
      ExecKeepsInv(Step(s, acts[0]), acts[1..]);
    }
  }

  ghost predicate Reachable(s: State) {
    exists contract: Cache, acts: seq<Action> :: Exec(Init(contract), acts) == Some(s)
  }

  lemma ReachableInv(s: State)
    requires Reachable(s)
    ensures Inv(s)
  {
    var contract: Cache, acts: seq<Action> :| Exec(Init(contract), acts) == Some(s);
    assert Inv(Init(contract));
    ExecKeepsInv(Init(contract), acts);
  }

  /**
   * No lost invalidation: with no fetch under way, a clear flag means that the cached set stems from a fetch
   * whose flag swap came after the latest mark, and is the contract's set at some step after that swap.
   */
  lemma NoLostInvalidation(s: State)
    requires Reachable(s) && !s.dirty && forall id | id in s.pcs :: !s.pcs[id].Fetching?
    ensures s.markAt < s.swapAt <= s.readAt < |s.log| && s.base == s.log[s.readAt]
  {
    ReachableInv(s);
  }

  /** In an epoch that began with nothing in flight, no two submitters ever hold the same outpoint. */
  lemma NoDoubleSelection(s: State, i: nat, j: nat, k: string)
    requires Reachable(s) && s.clean && i in s.pcs && j in s.pcs && k in Held(s.pcs[i]) && k in Held(s.pcs[j])
    ensures i == j
  {
    ReachableInv(s);
    assert Holds(LedgerOf(s).held, i, k) && Holds(LedgerOf(s).held, j, k);
  }

  /** No two submitters are about to spend the same outpoint, and nobody one that was spent since the refresh. */
  predicate Disjoint(s: State) {
    && (forall i, j | i in s.pcs && j in s.pcs && i != j :: Claimed(s.pcs[i]) !! Claimed(s.pcs[j]))
    && forall i | i in s.pcs :: Claimed(s.pcs[i]) !! s.used
  }

  lemma ClaimIsHeld(s: State, i: nat, k: string)
    requires Conserved(s) && Backed(s) && i in s.pcs && k in Claimed(s.pcs[i])
    ensures k !in s.used && Holds(LedgerOf(s).held, i, k)
  {
    assert k in Held(s.pcs[i]);
    assert Holds(LedgerOf(s).held, i, k);
    assert k !in s.spent;
  }

  lemma BackedIsDisjoint(s: State)
    requires Conserved(s) && Backed(s)
    ensures Disjoint(s)
  {
    forall i, j | i in s.pcs && j in s.pcs && i != j ensures Claimed(s.pcs[i]) !! Claimed(s.pcs[j]) {
      forall k | k in Claimed(s.pcs[i]) ensures k !in Claimed(s.pcs[j]) {
        ClaimIsHeld(s, i, k);
        if k in Claimed(s.pcs[j]) { ClaimIsHeld(s, j, k); }
      }
    }
    forall i | i in s.pcs ensures Claimed(s.pcs[i]) !! s.used {
      forall k | k in Claimed(s.pcs[i]) ensures k !in s.used { ClaimIsHeld(s, i, k); }
    }
  }

  /** As long as every draft came from the cache, no outpoint is submitted twice. */
  lemma NoDoubleDraft(s: State)
    requires Reachable(s) && s.backed
    ensures Disjoint(s)
  {
    ReachableInv(s);
    BackedIsDisjoint(s);
  }

  lemma SelectClaims(s: State, id: nat, draft: seq<OutPoint>)
    requires s.log != [] && Enabled(s, Select(id, draft))
    ensures var t := Step(s, Select(id, draft));
            && t.used == s.used && t.pcs.Keys == s.pcs.Keys && Claimed(t.pcs[id]) == KeysOf(draft) && Claimed(s.pcs[id]) == {}
            && forall j | j in s.pcs && j != id :: t.pcs[j] == s.pcs[j]
  {
    SelectEffect(s, id, draft);
  }

  lemma DisjointUnlessCollides(s: State, id: nat, draft: seq<OutPoint>)
    requires s.log != [] && Enabled(s, Select(id, draft)) && Disjoint(s)
    ensures Disjoint(Step(s, Select(id, draft))) <==> !Collides(s, draft)
  {
    SelectClaims(s, id, draft);
    var t := Step(s, Select(id, draft));
    if Collides(s, draft) {
      var k :| k in KeysOf(draft) && (k in s.used || exists j | j in s.pcs :: k in Claimed(s.pcs[j]));
      if k in s.used {
        assert k in Claimed(t.pcs[id]);
      } else {
        var j :| j in s.pcs && k in Claimed(s.pcs[j]);
        assert k in Claimed(t.pcs[j]) && k in Claimed(t.pcs[id]);
      }
    }
  }

  /**
   * From there on, exactly: in a clean epoch a draft keeps submissions disjoint if and only if it names neither an
   * outpoint that is gone nor one that an earlier draft named unseen.
   */
  lemma DraftStaysDisjointIff(s: State, id: nat, draft: seq<OutPoint>)
    requires Reachable(s) && s.log != [] && s.clean && Disjoint(s) && Enabled(s, Select(id, draft))
    ensures Disjoint(Step(s, Select(id, draft))) <==> forall k | k in KeysOf(draft) :: !Gone(s, k) && !Unseen(s, k)
  {
    ReachableInv(s);
    CollidesIff(s, draft);
    DisjointUnlessCollides(s, id, draft);
  }

  /** The first draft that does not come from the cache ends the disjointness exactly if it names an outpoint that is gone. */
  lemma FirstUnbackedDraftIff(s: State, id: nat, draft: seq<OutPoint>)
    requires Reachable(s) && s.log != [] && s.backed && Enabled(s, Select(id, draft))
    ensures Disjoint(Step(s, Select(id, draft))) <==> forall k | k in KeysOf(draft) :: !Gone(s, k)
  {
    ReachableInv(s);
    BackedIsDisjoint(s);
    forall k ensures !Unseen(s, k) { BackedIsSeen(s, k); }
    DraftStaysDisjointIff(s, id, draft);
  }

  /** A submitter between its selection and the end of its transfer. */
  predicate Drafted(pc: Pc) { pc.Submitting? || pc.Restoring? }

  /** Refreshes meet nobody in the middle of a transfer, and drafts name cached outpoints only. */
  predicate Orderly(s: State, acts: seq<Action>)
    decreases |acts|
  {
    acts != [] && s.log != [] && Enabled(s, acts[0]) ==>
      && (acts[0].Answer? && acts[0].read.Some? ==> forall id | id in s.pcs :: !Drafted(s.pcs[id]))
      && (acts[0].Select? ==> forall i :: 0 <= i < |acts[0].draft| ==> OutPointKey(acts[0].draft[i]) in s.utxos)
      && Orderly(Step(s, acts[0]), acts[1..])
  }

  lemma {:induction false} OrderlyIsBacked(s: State, acts: seq<Action>)
    requires s.backed && Orderly(s, acts) && Exec(s, acts).Some?
    ensures Exec(s, acts).value.backed
    decreases |acts|
  {
    if acts != [] {
      var a, t := acts[0], Step(s, acts[0]);
      if a.Answer? && a.read.Some? {
        assert NothingInFlight(s) && NothingClaimed(s) by {
          forall id | id in s.pcs ensures Held(s.pcs[id]) == map[] && Claimed(s.pcs[id]) == {} {
            assert !Drafted(s.pcs[id]);
          }
        }
      } else if a.Select? {
        assert KeysOf(a.draft) <= s.utxos.Keys;
      }
      OrderlyIsBacked(t, acts[1..]);
    }
  }

  /** Told by the schedule alone: in every orderly run no outpoint is submitted twice. */
  lemma OrderlyRunsAreDisjoint(contract: Cache, acts: seq<Action>)
    requires Exec(Init(contract), acts).Some? && Orderly(Init(contract), acts)
    ensures Disjoint(Exec(Init(contract), acts).value)
  {
    OrderlyIsBacked(Init(contract), acts);
    NoDoubleDraft(Exec(Init(contract), acts).value);
  }
}
