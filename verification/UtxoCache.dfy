/**
 * The in-memory cache of bridge-held UTXOs (omni-relayer/src/utils/utxo.rs) and one transfer's use of it
 * (omni-relayer/src/workers/near.rs).
 */
module UtxoCache {
  import opened Wrappers
  import opened Text
  import opened Chains

  datatype OutPoint = OutPoint(txid: string, vout: nat)
  datatype Utxo = Utxo(balance: nat, details: string)
  type Cache = map<string, Utxo>
  datatype Entry = Entry(key: string, utxo: Utxo)

  function OutPointKey(op: OutPoint): string { op.txid + "@" + Decimal(op.vout) }

  /** No two outpoints share a cache key. */
  lemma OutPointKeyInjective(a: OutPoint, b: OutPoint)
    requires OutPointKey(a) == OutPointKey(b)
    ensures a == b
  {
    DecimalSuffixUnique(a.txid + "@", a.vout, b.txid + "@", b.vout);
    assert a.txid == (a.txid + "@")[..|a.txid|];
    assert b.txid == (b.txid + "@")[..|b.txid|];
  }

  /** A cache key is the transaction id, an `@` and the output number in decimal. */
  lemma OutPointKeyReads(op: OutPoint)
    ensures var key, n := OutPointKey(op), |op.txid|;
            && |key| > n + 1 && key[..n] == op.txid && key[n] == '@'
            && AllDigits(key[n + 1..]) && DecimalValue(key[n + 1..]) == op.vout
  {
    var key, n := OutPointKey(op), |op.txid|;
    assert key[..n] == op.txid;
    assert key[n + 1..] == Decimal(op.vout);
    ValueOfDecimal(op.vout);
  }

  function KeysOf(draft: seq<OutPoint>): set<string> { set i | 0 <= i < |draft| :: OutPointKey(draft[i]) }

  /** The entry of one more outpoint, unless it is not cached or was mentioned before. */
  function TakenLast(cache: Cache, earlier: seq<OutPoint>, key: string): seq<Entry> {
    if key in cache && key !in KeysOf(earlier) then [Entry(key, cache[key])] else []
  }

  /** The cached entries among the draft's outpoints, each at its first mention. */
  function Taken(cache: Cache, draft: seq<OutPoint>): seq<Entry> {
    if draft == [] then []
    else
      var earlier, key := draft[..|draft| - 1], OutPointKey(draft[|draft| - 1]);
      Taken(cache, earlier) + TakenLast(cache, earlier, key)
  }

  /** What inserting the entries one after the other adds. */
  function AsMap(entries: seq<Entry>): Cache {
    if entries == [] then map[]
    else AsMap(entries[..|entries| - 1])[entries[|entries| - 1].key := entries[|entries| - 1].utxo]
  }

  lemma KeysOfOneMore(earlier: seq<OutPoint>, op: OutPoint)
    ensures KeysOf(earlier + [op]) == KeysOf(earlier) + {OutPointKey(op)}
  {
    var draft := earlier + [op];
    assert draft[|earlier|] == op;
    forall k ensures k in KeysOf(draft) <==> k in KeysOf(earlier) + {OutPointKey(op)} {
      if k in KeysOf(earlier) {
        var i :| 0 <= i < |earlier| && OutPointKey(earlier[i]) == k;
        assert draft[i] == earlier[i];
      }
    }
  }

  /** What one more outpoint of the draft adds to the removed entries and takes from the cache. */
  lemma TakeStep(cache: Cache, earlier: seq<OutPoint>, op: OutPoint)
    ensures var key, left := OutPointKey(op), cache - KeysOf(earlier);
            if key in left
            then Taken(cache, earlier + [op]) == Taken(cache, earlier) + [Entry(key, left[key])]
                 && cache - KeysOf(earlier + [op]) == left - {key}
            else Taken(cache, earlier + [op]) == Taken(cache, earlier) && cache - KeysOf(earlier + [op]) == left
  {
    TakenUnfolds(cache, earlier, op);
    KeysOfOneMore(earlier, op);
  }

  function Restrict(m: Cache, keys: set<string>): Cache { map k | k in m && k in keys :: m[k] }

  lemma RestrictOneMore(m: Cache, keys: set<string>, key: string)
    ensures Restrict(m, keys + {key}) == if key in m then Restrict(m, keys)[key := m[key]] else Restrict(m, keys)
  {
  }

  lemma AsMapOneMore(entries: seq<Entry>, e: Entry)
    ensures AsMap(entries + [e]) == AsMap(entries)[e.key := e.utxo]
  {
    assert (entries + [e])[..|entries|] == entries;
  }

  lemma TakenUnfolds(cache: Cache, earlier: seq<OutPoint>, op: OutPoint)
    ensures Taken(cache, earlier + [op]) == Taken(cache, earlier) + TakenLast(cache, earlier, OutPointKey(op))
  {
    assert (earlier + [op])[..|earlier|] == earlier;
  }

  lemma TakenOneMore(cache: Cache, earlier: seq<OutPoint>, op: OutPoint)
    requires AsMap(Taken(cache, earlier)) == Restrict(cache, KeysOf(earlier))
    ensures AsMap(Taken(cache, earlier + [op])) == Restrict(cache, KeysOf(earlier) + {OutPointKey(op)})
  {
    var key, taken := OutPointKey(op), Taken(cache, earlier);
    TakenUnfolds(cache, earlier, op);
    RestrictOneMore(cache, KeysOf(earlier), key);
    if key in cache && key !in KeysOf(earlier) {
      AsMapOneMore(taken, Entry(key, cache[key]));
    } else {
      assert taken + [] == taken;
    }
  }

  lemma {:induction false} TakenIsRestriction(cache: Cache, draft: seq<OutPoint>)
    ensures AsMap(Taken(cache, draft)) == Restrict(cache, KeysOf(draft))
  {
    if draft != [] {
      var earlier, op := draft[..|draft| - 1], draft[|draft| - 1];
      assert draft == earlier + [op];
      TakenIsRestriction(cache, earlier);
      TakenOneMore(cache, earlier, op);
      KeysOfOneMore(earlier, op);
    }
  }

  /** Restoring what was taken gives the cache back, whatever the draft named, with or without repetitions. */
  lemma RestoreUndoesTake(cache: Cache, draft: seq<OutPoint>)
    ensures (cache - KeysOf(draft)) + AsMap(Taken(cache, draft)) == cache
    ensures (cache - KeysOf(draft)).Keys !! AsMap(Taken(cache, draft)).Keys
  {
    TakenIsRestriction(cache, draft);
  }

  lemma {:induction false} AsMapEmpty(entries: seq<Entry>)
    ensures AsMap(entries) == map[] <==> entries == []
  {
    if entries != [] { assert entries[|entries| - 1].key in AsMap(entries); }
  }

  // ----- One transfer with nobody interfering -----

  function Submitted(selection: Result<seq<OutPoint>, SdkError>, submission: Result<string, SdkError>)
    : Result<string, SdkError>
  {
    if selection.Ok? then submission else Err(selection.error)
  }

  /** What the guard is given with: the contract's answer, if the set is dirty and there is one. */
  function Locked(utxos: Cache, dirty: bool, answer: Option<Cache>): Cache {
    if dirty && answer.Some? then answer.value else utxos
  }

  /** On success exactly the drafted outpoints are gone; on failure none are. */
  function UtxosAfter(utxos: Cache, dirty: bool, answer: Option<Cache>, selection: Result<seq<OutPoint>, SdkError>,
                      submission: Result<string, SdkError>): Cache
  {
    var locked := Locked(utxos, dirty, answer);
    if Submitted(selection, submission).Ok? then locked - KeysOf(selection.value) else locked
  }

  /** Dirty after a refresh without an answer, and after a NEAR RPC error. */
  predicate DirtyAfter(dirty: bool, answer: Option<Cache>, selection: Result<seq<OutPoint>, SdkError>,
                       submission: Result<string, SdkError>)
  {
    var result := Submitted(selection, submission);
    (dirty && answer.None?) || (result.Err? && result.error.NearRpcError?)
  }

  class ChainSlot {
    var utxos: Cache
    var dirty: bool

    constructor ()
      ensures utxos == map[] && dirty
    {
      utxos, dirty := map[], true;
    }
  }

  /** Every operation names a chain; the slots of the others never change. */
  class UtxoSet {
    const btc: ChainSlot
    const zcash: ChainSlot

    ghost predicate Valid() { btc != zcash }

    constructor ()
      ensures Valid() && fresh(btc) && fresh(zcash)
      ensures btc.utxos == map[] && btc.dirty && zcash.utxos == map[] && zcash.dirty
    {
      btc := new ChainSlot();
      zcash := new ChainSlot();
    }

    function Slot(chain: ChainKind): Option<ChainSlot> {
      match chain
      case Btc => Some(btc)
      case Zcash => Some(zcash)
      case _ => None
    }

    /** Neither slot is touched by an operation on another chain. */
    twostate predicate OthersKept(chain: ChainKind)
      reads btc, zcash
    {
      && (chain != Btc ==> btc.utxos == old(btc.utxos) && btc.dirty == old(btc.dirty))
      && (chain != Zcash ==> zcash.utxos == old(zcash.utxos) && zcash.dirty == old(zcash.dirty))
    }

    method MarkDirty(chain: ChainKind)
      requires Valid()
      modifies btc, zcash
      ensures OthersKept(chain)
      ensures chain == Btc ==> btc.dirty && btc.utxos == old(btc.utxos)
      ensures chain == Zcash ==> zcash.dirty && zcash.utxos == old(zcash.utxos)
    {
      var slot := Slot(chain);
      if slot.Some? { slot.value.dirty := true; }
    }

    /**
     * Takes the guard, refreshing first when the flag is set. `marked` says whether the set was marked while the
     * contract was being queried, `answer` is the contract's answer. A mark that arrives meanwhile survives, and
     * so does the flag when there is no answer.
     */
    method Lock(chain: ChainKind, marked: bool, answer: Option<Cache>) returns (guarded: bool)
      requires Valid()
      modifies btc, zcash
      ensures OthersKept(chain)
      ensures guarded <==> chain == Btc || chain == Zcash
      ensures chain == Btc ==>
                && btc.utxos == (if old(btc.dirty) && answer.Some? then answer.value else old(btc.utxos))
                && btc.dirty == (old(btc.dirty) && (marked || answer.None?))
      ensures chain == Zcash ==>
                && zcash.utxos == (if old(zcash.dirty) && answer.Some? then answer.value else old(zcash.utxos))
                && zcash.dirty == (old(zcash.dirty) && (marked || answer.None?))
    {
      var slot := Slot(chain);
      if slot.None? { return false; }
      var wasDirty := slot.value.dirty;
      slot.value.dirty := false;
      if wasDirty {
        if marked { slot.value.dirty := true; }
        match answer {
          case Some(current) => slot.value.utxos := current;
          case None => slot.value.dirty := true;
        }
      }
      return true;
    }

    /** Without a guard, for a chain that has no slot, nothing is taken. */
    method TakeOutpoints(chain: ChainKind, draft: seq<OutPoint>) returns (removed: seq<Entry>)
      requires Valid()
      modifies btc, zcash
      ensures OthersKept(chain)
      ensures chain != Btc && chain != Zcash ==> removed == []
      ensures chain == Btc ==>
                && removed == Taken(old(btc.utxos), draft)
                && btc.utxos == old(btc.utxos) - KeysOf(draft) && btc.dirty == old(btc.dirty)
      ensures chain == Zcash ==>
                && removed == Taken(old(zcash.utxos), draft)
                && zcash.utxos == old(zcash.utxos) - KeysOf(draft) && zcash.dirty == old(zcash.dirty)
    {
      var slot := Slot(chain);
      removed := [];
      if slot.None? { return; }
      ghost var cache := slot.value.utxos;
      for i := 0 to |draft|
        invariant OthersKept(chain)
        invariant removed == Taken(cache, draft[..i])
        invariant slot.value.utxos == cache - KeysOf(draft[..i])
        invariant slot.value.dirty == old(slot.value.dirty)
      {
        var key := OutPointKey(draft[i]);
        TakeStep(cache, draft[..i], draft[i]);
        assert draft[..i + 1] == draft[..i] + [draft[i]];
        if key in slot.value.utxos {
          removed := removed + [Entry(key, slot.value.utxos[key])];
          slot.value.utxos := slot.value.utxos - {key};
        }
      }
      assert draft[..|draft|] == draft;
    }

    method RestoreOutpoints(chain: ChainKind, removed: seq<Entry>)
      requires Valid()
      modifies btc, zcash
      ensures OthersKept(chain)
      ensures chain == Btc ==> btc.utxos == old(btc.utxos) + AsMap(removed) && btc.dirty == old(btc.dirty)
      ensures chain == Zcash ==> zcash.utxos == old(zcash.utxos) + AsMap(removed) && zcash.dirty == old(zcash.dirty)
    {
      var slot := Slot(chain);
      if removed == [] || slot.None? { return; }
      for i := 0 to |removed|
        invariant OthersKept(chain)
        invariant slot.value.utxos == old(slot.value.utxos) + AsMap(removed[..i])
        invariant slot.value.dirty == old(slot.value.dirty)
      {
        assert removed[..i + 1][..i] == removed[..i];
        slot.value.utxos := slot.value.utxos[removed[i].key := removed[i].utxo];
      }
      assert removed[..|removed|] == removed;
    }

    /**
     * One transfer with nobody interfering: lock, select, take, submit, and on any failure restore and, after a
     * NEAR RPC error, invalidate. `answer` is the contract's answer should a refresh be needed.
     */
    method SubmitTransfer(chain: ChainKind, answer: Option<Cache>, selection: Result<seq<OutPoint>, SdkError>,
                          submission: Result<string, SdkError>)
      returns (result: Result<string, SdkError>)
      requires Valid()
      modifies btc, zcash
      ensures OthersKept(chain)
      ensures result == if selection.Ok? then submission else Err(selection.error)
      ensures chain == Btc ==>
                && btc.utxos == UtxosAfter(old(btc.utxos), old(btc.dirty), answer, selection, submission)
                && btc.dirty == DirtyAfter(old(btc.dirty), answer, selection, submission)
      ensures chain == Zcash ==>
                && zcash.utxos == UtxosAfter(old(zcash.utxos), old(zcash.dirty), answer, selection, submission)
                && zcash.dirty == DirtyAfter(old(zcash.dirty), answer, selection, submission)
    {
      var guarded := Lock(chain, false, answer);
      var removed: seq<Entry> := [];
      match selection {
        case Ok(draft) =>
          if guarded {
            RestoreUndoesTake(Slot(chain).value.utxos, draft);
            removed := TakeOutpoints(chain, draft);
          }
          result := submission;
        case Err(e) => result := Err(e);
      }
      if result.Err? {
        RestoreOutpoints(chain, removed);
        if result.error.NearRpcError? { MarkDirty(chain); }
      }
    }
  }

  datatype SdkError = NearRpcError(message: string) | OtherSdkError(message: string)
}
