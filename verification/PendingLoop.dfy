/**
 * One iteration of the fee-bumping loop over the score-ordered queue (omni-relayer/src/startup/evm_fee_bumping.rs), and
 * the iteration as a run of module PendingQueue.
 */
module PendingLoop {
  import opened Wrappers
  import opened PendingQueue

  /** How Redis orders members of equal score: by their serialised form, which is arbitrary here. */
  type TieBreak = (PendingTx, PendingTx) -> bool

  /** A sorted set: ordered by nonce, its score, and without repeated members. Several entries may have one nonce. */
  predicate Ordered(q: seq<PendingTx>) { forall i, j :: 0 <= i < j < |q| ==> q[i].nonce <= q[j].nonce && q[i] != q[j] }

  /** The first place where `tx` may stand. */
  function Position(q: seq<PendingTx>, tx: PendingTx, before: TieBreak): (k: nat)
    ensures k <= |q| && (k < |q| ==> tx.nonce <= q[k].nonce)
    ensures forall i :: 0 <= i < k ==> q[i].nonce <= tx.nonce
  {
    if q == [] || tx.nonce < q[0].nonce || (tx.nonce == q[0].nonce && before(tx, q[0])) then 0
    else
      var k := Position(q[1..], tx, before);
      assert forall i :: 1 <= i < k + 1 ==> q[i] == q[1..][i - 1];
      k + 1
  }

  function Place(q: seq<PendingTx>, tx: PendingTx, before: TieBreak): seq<PendingTx> {
    var k := Position(q, tx, before);
    q[..k] + ([tx] + q[k..])
  }

  /** `zadd` of a member that is there already changes nothing. */
  function ZAdd(q: seq<PendingTx>, tx: PendingTx, before: TieBreak): seq<PendingTx> {
    if tx in q then q else Place(q, tx, before)
  }

  /** What came of the head: nothing yet, it left the queue, or it stays with a new hash. */
  datatype Fate = Stays | Leaves | Rises(txHash: string)

  function FateOf(c: FeeBumping, tx: PendingTx, now: int, status: Option<Status>): Fate {
    if TooYoung(c, tx, now) then Stays
    else
      match status
      case Some(Included) => Leaves
      case Some(Missing(Accepted(_))) => Leaves
      case Some(Pending(Some(txHash))) => Rises(txHash)
      case _ => Stays
  }

  function After(c: FeeBumping, q: seq<PendingTx>, now: int, status: Option<Status>, before: TieBreak): seq<PendingTx>
    requires q != []
  {
    match FateOf(c, q[0], now, status)
    case Stays => q
    case Leaves => q[1..]
    case Rises(txHash) => ZAdd(q[1..], Bumped(q[0], txHash, now), before)
  }

  class PendingTransactions {
    var entries: seq<PendingTx>
    /** Source events handed to the stream's client again, under the hash of the missing transaction. */
    var replayed: seq<(string, string)>
    const before: TieBreak

    constructor (before: TieBreak)
      ensures entries == [] && replayed == [] && this.before == before
    {
      this.entries, this.replayed, this.before := [], [], before;
    }

    /**
     * Looks at the head only; `status` is what the node and, for a replacement or a replay, the transport answer.
     * Whatever happens, the other entries stay as they are and the set stays ordered.
     */
    method Iterate(c: FeeBumping, now: int, status: Option<Status>)
      requires Ordered(entries)
      modifies this
      ensures Ordered(entries)
      ensures old(entries) == [] ==> entries == [] && replayed == old(replayed)
      ensures old(entries) != [] ==>
                var head := old(entries)[0];
                var young := now < head.sentAt + c.minPendingTime
                             || (head.lastBump.Some? && now < head.lastBump.value + c.minSinceLastBump);
                && entries == After(c, old(entries), now, status, before)
                && replayed == old(replayed)
                     + if !young && status.Some? && status.value.Missing? && status.value.reply.Accepted?
                       then [(head.txHash, head.source)] else []
    {
      if entries == [] { return; }
      var pendingTx := entries[0];
      AfterIsOrdered(c, entries, now, status, before);
      if TooYoung(c, pendingTx, now) { return; }
      match status {
        case None =>
        case Some(Included) => entries := entries[1..];
        case Some(Missing(Refused)) =>
        case Some(Missing(Accepted(_))) =>
          replayed := replayed + [(pendingTx.txHash, pendingTx.source)];
          entries := entries[1..];
        case Some(Pending(None)) =>
        case Some(Pending(Some(txHash))) =>
          entries := entries[1..];
          entries := ZAdd(entries, Bumped(pendingTx, txHash, now), before);
      }
    }
  }

  function Members(q: seq<PendingTx>): set<PendingTx> { set tx | tx in q }

  lemma OrderedAround(a: seq<PendingTx>, tx: PendingTx, b: seq<PendingTx>)
    requires Ordered(a) && Ordered(b)
    requires forall i, j :: 0 <= i < |a| && 0 <= j < |b| ==> a[i].nonce <= b[j].nonce && a[i] != b[j]
    requires forall i :: 0 <= i < |a| ==> a[i].nonce <= tx.nonce && a[i] != tx
    requires forall j :: 0 <= j < |b| ==> tx.nonce <= b[j].nonce && b[j] != tx
    ensures Ordered(a + ([tx] + b))
  {
  }

  lemma PartsOfOrdered(q: seq<PendingTx>, k: nat)
    requires Ordered(q) && k <= |q|
    ensures Ordered(q[..k]) && Ordered(q[k..])
    ensures forall i, j :: 0 <= i < k && 0 <= j < |q[k..]| ==> q[..k][i].nonce <= q[k..][j].nonce && q[..k][i] != q[k..][j]
  {
  }

  lemma BeyondPosition(q: seq<PendingTx>, tx: PendingTx, k: nat)
    requires Ordered(q) && k <= |q| && tx !in q && (k < |q| ==> tx.nonce <= q[k].nonce)
    requires forall i :: 0 <= i < k ==> q[i].nonce <= tx.nonce
    ensures forall i :: 0 <= i < k ==> q[..k][i].nonce <= tx.nonce && q[..k][i] != tx
    ensures forall j :: 0 <= j < |q[k..]| ==> tx.nonce <= q[k..][j].nonce && q[k..][j] != tx
  {
  }

  lemma PlaceIsOrdered(q: seq<PendingTx>, tx: PendingTx, before: TieBreak)
    requires Ordered(q) && tx !in q
    ensures Ordered(Place(q, tx, before))
  {
    var k := Position(q, tx, before);
    PartsOfOrdered(q, k);
    BeyondPosition(q, tx, k);
    OrderedAround(q[..k], tx, q[k..]);
  }

  lemma PlaceAdds(q: seq<PendingTx>, tx: PendingTx, before: TieBreak)
    ensures Members(Place(q, tx, before)) == Members(q) + {tx}
  {
    var k := Position(q, tx, before);
    MembersAround(q[..k], tx, q[k..]);
    assert q == q[..k] + q[k..];
  }

  lemma MembersAround(a: seq<PendingTx>, tx: PendingTx, b: seq<PendingTx>)
    ensures Members(a + ([tx] + b)) == Members(a + b) + {tx}
  {
  }

  lemma ZAddIsOrdered(q: seq<PendingTx>, tx: PendingTx, before: TieBreak)
    requires Ordered(q)
    ensures Ordered(ZAdd(q, tx, before)) && Members(ZAdd(q, tx, before)) == Members(q) + {tx}
  {
    if tx !in q {
      PlaceIsOrdered(q, tx, before);
      PlaceAdds(q, tx, before);
    }
  }

  /**
   * What becomes of the head. Until it and its last bump are old enough, and while the node or the transport does not
   * answer, it stays; seen included or replayed it leaves; bumped, it gives way to a copy that has the new hash, the
   * time of the bump, and everything else unchanged. The other members stay in every case.
   */
  lemma HeadAfter(c: FeeBumping, q: seq<PendingTx>, now: int, status: Option<Status>, before: TieBreak)
    requires q != [] && Ordered(q)
    ensures var head, later := q[0], After(c, q, now, status, before);
            var young := now < head.sentAt + c.minPendingTime
                         || (head.lastBump.Some? && now < head.lastBump.value + c.minSinceLastBump);
            if young || status.None? || status == Some(Pending(None)) || status == Some(Missing(Refused)) then later == q
            else if status.value.Pending? then
              var copy := PendingTx(status.value.sent.value, head.nonce, head.sentAt, Some(now), head.source);
              Members(later) == Members(q) - {head} + {copy}
            else [head] + later == q
  {
    RestMembers(q);
    var fate := FateOf(c, q[0], now, status);
    if fate.Rises? { ZAddIsOrdered(q[1..], Bumped(q[0], fate.txHash, now), before); }
  }

  lemma AfterIsOrdered(c: FeeBumping, q: seq<PendingTx>, now: int, status: Option<Status>, before: TieBreak)
    requires q != [] && Ordered(q)
    ensures Ordered(After(c, q, now, status, before))
  {
    var fate := FateOf(c, q[0], now, status);
    if fate.Rises? { ZAddIsOrdered(q[1..], Bumped(q[0], fate.txHash, now), before); }
  }

  // ----- What an iteration keeps -----

  function Lineages(q: seq<PendingTx>): (r: seq<(nat, string)>)
    ensures |r| == |q| && forall i :: 0 <= i < |q| ==> r[i] == Lineage(q[i])
  {
    seq(|q|, i requires 0 <= i < |q| => Lineage(q[i]))
  }

  function Nonces(q: seq<PendingTx>): (r: seq<nat>)
    ensures |r| == |q| && forall i :: 0 <= i < |q| ==> r[i] == q[i].nonce
  {
    seq(|q|, i requires 0 <= i < |q| => q[i].nonce)
  }

  lemma LineagesOfConcat(a: seq<PendingTx>, b: seq<PendingTx>)
    ensures Lineages(a + b) == Lineages(a) + Lineages(b)
  {
  }

  lemma PlaceKeepsLineages(q: seq<PendingTx>, tx: PendingTx, before: TieBreak)
    ensures multiset(Lineages(Place(q, tx, before))) == multiset(Lineages(q)) + multiset{Lineage(tx)}
  {
    var k := Position(q, tx, before);
    LineagesOfConcat(q[..k], [tx] + q[k..]);
    LineagesOfConcat([tx], q[k..]);
    LineagesOfConcat(q[..k], q[k..]);
    assert q == q[..k] + q[k..];
    assert Lineages([tx]) == [Lineage(tx)];
  }

  /** A copy of the lowest nonce finds its place among the entries of that nonce. */
  lemma PlaceLowest(q: seq<PendingTx>, tx: PendingTx, before: TieBreak)
    requires forall i :: 0 <= i < |q| ==> tx.nonce <= q[i].nonce
    ensures Nonces(Place(q, tx, before)) == [tx.nonce] + Nonces(q)
    ensures q == [] || tx.nonce < q[0].nonce ==> Place(q, tx, before) == [tx] + q
  {
    var k, r := Position(q, tx, before), Place(q, tx, before);
    forall i | 0 <= i < |r| ensures Nonces(r)[i] == ([tx.nonce] + Nonces(q))[i] {
      if i < k { assert q[i].nonce == tx.nonce; }
      if 0 < i <= k { assert q[i - 1].nonce == tx.nonce; }
    }
    assert |Nonces(r)| == |[tx.nonce] + Nonces(q)|;
  }

  lemma RiseKeepsLineages(head: PendingTx, rest: seq<PendingTx>, up: PendingTx, before: TieBreak)
    requires Lineage(up) == Lineage(head) && forall i :: 0 <= i < |rest| ==> head.nonce <= rest[i].nonce
    ensures var q, later := [head] + rest, Place(rest, up, before);
            && Nonces(later) == Nonces(q)
            && multiset(Lineages(later)) == multiset(Lineages(q))
            && (rest == [] || head.nonce < rest[0].nonce ==> Lineages(later) == Lineages(q))
  {
    PlaceLowest(rest, up, before);
    PlaceKeepsLineages(rest, up, before);
    LineagesOfConcat([head], rest);
    LineagesOfConcat([up], rest);
    assert Lineages([head]) == Lineages([up]) == [Lineage(up)];
    assert Nonces([head] + rest) == [up.nonce] + Nonces(rest);
  }

  /**
   * A bump keeps the queue's nonces in order and its entries' nonces and source events; the order of the latter, too,
   * if no other entry has the head's nonce. Anything else removes the head at most. The one exception is a bumped copy
   * that is a member already.
   */
  lemma IterationKeepsLineages(c: FeeBumping, q: seq<PendingTx>, now: int, status: Option<Status>, before: TieBreak)
    requires q != [] && Ordered(q)
    ensures var fate, later := FateOf(c, q[0], now, status), After(c, q, now, status, before);
            && (fate.Stays? ==> later == q)
            && (fate.Leaves? || (fate.Rises? && Bumped(q[0], fate.txHash, now) in q[1..]) ==> later == q[1..])
            && (fate.Rises? && Bumped(q[0], fate.txHash, now) !in q[1..] ==>
                  && Nonces(later) == Nonces(q)
                  && multiset(Lineages(later)) == multiset(Lineages(q))
                  && (|q| == 1 || q[0].nonce < q[1].nonce ==> Lineages(later) == Lineages(q)))
  {
    var fate := FateOf(c, q[0], now, status);
    assert q == [q[0]] + q[1..];
    if fate.Rises? { RiseKeepsLineages(q[0], q[1..], Bumped(q[0], fate.txHash, now), before); }
  }

  // ----- The iteration in the concurrent model -----

  lemma RestMembers(q: seq<PendingTx>)
    requires q != [] && Ordered(q)
    ensures Members(q[1..]) == Members(q) - {q[0]} && forall u | u in Members(q) :: q[0].nonce <= u.nonce
  {
    assert q == [q[0]] + q[1..];
    forall tx | tx in q[1..] ensures tx != q[0] && q[0].nonce <= tx.nonce {
      var i :| 0 <= i < |q[1..]| && q[1..][i] == tx;
      assert q[i + 1] == tx;
    }
  }

  /** What becomes of the additions behind the head. */
  function QueueAfter(c: FeeBumping, queue: map<PendingTx, set<nat>>, head: PendingTx, now: int, status: Option<Status>)
    : map<PendingTx, set<nat>>
  {
    match FateOf(c, head, now, status)
    case Stays => queue
    case Leaves => queue - {head}
    case Rises(txHash) => Insert(queue - {head}, Bumped(head, txHash, now), IdsOf(queue, head))
  }

  lemma IterationSteps(c: FeeBumping, s: State, head: PendingTx, now: int, status: Option<Status>)
    returns (acts: seq<Action>, t: State)
    requires s.pc.Idle? && IsHead(s.queue, head)
    ensures Exec(c, s, acts) == Some(t) && Crash !in acts
    ensures t.pc.Idle? && t.origin == s.origin && t.queue == QueueAfter(c, s.queue, head, now, status)
  {
    var a, b := Look(head), Examine(now, status);
    var s1 := Step(c, s, a);
    var s2 := Step(c, s1, b);
    if s2.pc.Idle? {
      acts, t := [a] + ([b] + []), s2;
      ExecCons(c, s1, b, []);
      ExecCons(c, s, a, [b] + []);
    } else {
      var last := if s2.pc.Moving? then Readd else Drop;
      acts, t := [a] + ([b] + ([last] + [])), Step(c, s2, last);
      ExecCons(c, s2, last, []);
      ExecCons(c, s1, b, [last] + []);
      ExecCons(c, s, a, [b] + ([last] + []));
    }
  }

  lemma QueueAfterKeys(c: FeeBumping, queue: map<PendingTx, set<nat>>, q: seq<PendingTx>, now: int, status: Option<Status>,
                       before: TieBreak)
    requires q != [] && Ordered(q) && queue.Keys == Members(q)
    ensures QueueAfter(c, queue, q[0], now, status).Keys == Members(After(c, q, now, status, before))
  {
    RestMembers(q);
    var fate := FateOf(c, q[0], now, status);
    if fate.Rises? { ZAddIsOrdered(q[1..], Bumped(q[0], fate.txHash, now), before); }
  }

  /**
   * The iteration is a run of the concurrent model without a crash: the model ends with the same members, and with
   * every other entry's additions untouched.
   */
  lemma IterationIsRun(c: FeeBumping, s: State, q: seq<PendingTx>, now: int, status: Option<Status>, before: TieBreak)
    returns (acts: seq<Action>, t: State)
    requires s.pc.Idle? && q != [] && Ordered(q) && s.queue.Keys == Members(q)
    ensures Exec(c, s, acts) == Some(t) && Crash !in acts
    ensures t.pc.Idle? && t.origin == s.origin
    ensures t.queue == QueueAfter(c, s.queue, q[0], now, status)
    ensures t.queue.Keys == Members(After(c, q, now, status, before))
  {
    var head := q[0];
    RestMembers(q);
    acts, t := IterationSteps(c, s, head, now, status);
    QueueAfterKeys(c, s.queue, q, now, status, before);
  }
}
