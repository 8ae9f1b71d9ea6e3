/** One iteration of the light-client poller (omni-relayer/src/startup/utxo_lc_poller.rs). */
module LcPoller {
  import opened Wrappers
  import opened DeferralProtocol

  /** The members of `s` in `xs`, in order. */
  function Keep<T(==)>(s: seq<T>, xs: set<T>): seq<T> {
    if s == [] then []
    else Keep(s[..|s| - 1], xs) + if s[|s| - 1] in xs then [s[|s| - 1]] else []
  }

  /** `s` without the members in `xs`. */
  function Without<T(==)>(s: seq<T>, xs: set<T>): seq<T> {
    if s == [] then []
    else Without(s[..|s| - 1], xs) + if s[|s| - 1] in xs then [] else [s[|s| - 1]]
  }

  lemma KeepOne<T>(s: seq<T>, last: T, xs: set<T>)
    ensures Keep(s + [last], xs) == Keep(s, xs) + if last in xs then [last] else []
  {
    assert (s + [last])[..|s|] == s;
  }

  lemma WithoutOne<T>(s: seq<T>, last: T, xs: set<T>)
    ensures Without(s + [last], xs) == Without(s, xs) + if last in xs then [] else [last]
  {
    assert (s + [last])[..|s|] == s;
  }

  lemma {:induction false} KeepTwice<T>(s: seq<T>, xs: set<T>, ys: set<T>)
    ensures Keep(Keep(s, xs), ys) == Keep(s, xs * ys)
  {
    if s != [] {
      var init, last := s[..|s| - 1], s[|s| - 1];
      KeepTwice(init, xs, ys);
      KeepOne(Keep(init, xs), last, ys);
      assert Keep(init, xs) + [] == Keep(init, xs);
      assert Keep(init, xs * ys) + [] == Keep(init, xs * ys);
    }
  }

  lemma {:induction false} WithoutTwice<T>(s: seq<T>, xs: set<T>, ys: set<T>)
    ensures Without(Without(s, xs), ys) == Without(s, xs + ys)
  {
    if s != [] {
      var init, last := s[..|s| - 1], s[|s| - 1];
      WithoutTwice(init, xs, ys);
      WithoutOne(Without(init, xs), last, ys);
      assert Without(init, xs) + [] == Without(init, xs);
      assert Without(init, xs + ys) + [] == Without(init, xs + ys);
    }
  }

  lemma {:induction false} WithoutNone<T>(s: seq<T>)
    ensures Without(s, {}) == s
  {
    if s != [] { WithoutNone(s[..|s| - 1]); }
  }

  lemma {:induction false} Members<T>(s: seq<T>, xs: set<T>, e: T)
    ensures e in Keep(s, xs) <==> e in s && e in xs
    ensures e in Without(s, xs) <==> e in s && e !in xs
  {
    if s != [] {
      var init, last := s[..|s| - 1], s[|s| - 1];
      Members(init, xs, e);
      assert s == init + [last];
      assert e in s <==> e in init || e == last;
    }
  }

  /** The entries whose target the tip has reached. */
  function Due(s: seq<Entry>, tip: nat): set<Entry> { set e | e in s && e.target <= tip }

  class Poller {
    var lastRefreshedTip: Option<nat>
    /** The sorted set of parked entries, in score order. */
    var pending: seq<Entry>
    /** Replays the stream's client accepted, in order. */
    var replayed: seq<Entry>
    /** Whether the UTXO set of the chain is marked stale. */
    var dirty: bool

    constructor (pending: seq<Entry>)
      ensures lastRefreshedTip == None && this.pending == pending && replayed == [] && !dirty
    {
      this.lastRefreshedTip, this.pending, this.replayed, this.dirty := None, pending, [], false;
    }

    /**
     * `tip` is the light client's answer, `readable` whether the sorted set could be read, `accepted` are the
     * entries whose publish would be accepted, `removable` those whose removal would. A tip that differs from the last
     * one marks the UTXO set stale. Exactly the due entries are offered to the stream, in score order; an entry
     * leaves the set only if it was accepted and its removal succeeded.
     */
    method Poll(tip: Option<nat>, readable: bool, accepted: set<Entry>, removable: set<Entry>)
      modifies this
      ensures tip.None? ==> dirty == old(dirty) && lastRefreshedTip == old(lastRefreshedTip)
      ensures tip.Some? ==> lastRefreshedTip == tip && dirty == (old(dirty) || old(lastRefreshedTip) != tip)
      ensures tip.None? || !readable ==> pending == old(pending) && replayed == old(replayed)
      ensures tip.Some? && readable ==>
                var sent := Due(old(pending), tip.value) * accepted;
                && replayed == old(replayed) + Keep(old(pending), sent)
                && pending == Without(old(pending), sent * removable)
    {
      if tip.None? { return; }
      if lastRefreshedTip != tip {
        dirty := true;
        lastRefreshedTip := tip;
      }
      if !readable { return; }
      var ready := Keep(pending, Due(pending, tip.value));
      KeepTwice(pending, Due(pending, tip.value), accepted);
      BothOfDue(pending, tip.value, accepted, removable);
      Replay(ready, accepted, removable);
    }

    /** Offers `ready` to the stream, one after the other, removing what was accepted. */
    method Replay(ready: seq<Entry>, accepted: set<Entry>, removable: set<Entry>)
      modifies this`pending, this`replayed
      ensures replayed == old(replayed) + Keep(ready, accepted)
      ensures pending == Without(old(pending), Both(ready, accepted, removable))
    {
      ghost var before, sent, gone := pending, replayed, {};
      WithoutNone(pending);
      for i := 0 to |ready|
        invariant replayed == sent + Keep(ready[..i], accepted)
        invariant gone == Both(ready[..i], accepted, removable)
        invariant pending == Without(before, gone)
      {
        var entry := ready[i];
        assert ready[..i + 1] == ready[..i] + [entry];
        KeepOne(ready[..i], entry, accepted);
        BothOne(ready[..i], entry, accepted, removable);
        WithoutTwice(before, gone, {entry});
        if entry in accepted {
          replayed := replayed + [entry];
          if entry in removable {
            pending := Without(pending, {entry});
            gone := gone + {entry};
          }
        }
      }
      assert ready[..|ready|] == ready;
    }
  }

  function Both<T(==)>(s: seq<T>, xs: set<T>, ys: set<T>): set<T> { set e | e in s && e in xs && e in ys }

  lemma BothOne<T>(s: seq<T>, last: T, xs: set<T>, ys: set<T>)
    ensures Both(s + [last], xs, ys) == Both(s, xs, ys) + if last in xs && last in ys then {last} else {}
  {
  }

  lemma BothOfDue(s: seq<Entry>, tip: nat, xs: set<Entry>, ys: set<Entry>)
    ensures Both(Keep(s, Due(s, tip)), xs, ys) == Due(s, tip) * xs * ys
  {
    forall e ensures e in Both(Keep(s, Due(s, tip)), xs, ys) <==> e in Due(s, tip) * xs * ys {
      Members(s, Due(s, tip), e);
    }
  }

  /**
   * What one poll means for an entry: it is replayed exactly when due and accepted, and it stays parked exactly
   * when it was not due, not accepted or not removable. So an undisturbed poll leaves nothing due behind.
   */
  lemma PollOfEntry(pending: seq<Entry>, tip: nat, accepted: set<Entry>, removable: set<Entry>, e: Entry)
    requires e in pending
    ensures e in Keep(pending, Due(pending, tip) * accepted) <==> e.target <= tip && e in accepted
    ensures e in Without(pending, Due(pending, tip) * accepted * removable)
       <==> e.target > tip || e !in accepted || e !in removable
  {
    Members(pending, Due(pending, tip) * accepted, e);
    Members(pending, Due(pending, tip) * accepted * removable, e);
  }
}
