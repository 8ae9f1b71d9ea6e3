/** One iteration of the poller of module LcPoller is a run of the concurrent protocol of module DeferralProtocol. */
module PollRefinement {
  import opened Wrappers
  import opened DeferralProtocol
  import opened LcPoller

  function Members(s: seq<Entry>): set<Entry> { set e | e in s }

  predicate Distinct(s: seq<Entry>) { forall i, j :: 0 <= i < j < |s| ==> s[i] != s[j] }

  /** What one offer does to the pending set, the stream's memory and the poller. */
  lemma OfferIsRun(s: State, p: nat, e: Entry, accepted: set<Entry>, stored: set<Entry>, removable: set<Entry>)
    returns (acts: seq<Action>, t: State)
    requires p in s.pollers && s.pollers[p].removing.None? && e in s.pollers[p].ready
    ensures Exec(s, acts) == Some(t)
    ensures p in t.pollers && t.pollers[p] == s.pollers[p].(ready := s.pollers[p].ready - {e})
    ensures t.pollers - {p} == s.pollers - {p} && t.tasks == s.tasks
    ensures t.pending == s.pending - (if e in accepted && e in removable then {e} else {})
    ensures s.dedup <= t.dedup && (e in accepted * stored ==> Replayed(e) in t.dedup)
  {
    if e in accepted {
      var a, b := Publish(p, e, Accepted(e in stored)), Unpark(p, e in removable);
      var u := Step(s, a);
      t := Step(u, b);
      acts := [a] + [b];
      ExecCons(s, a, [b]);
      ExecCons(u, b, []);
      assert [b] + [] == [b];
    } else {
      var a := Publish(p, e, Refused(false));
      t := Step(s, a);
      acts := [a];
      ExecCons(s, a, []);
      assert [a] + [] == [a];
    }
    assert t.pollers - {p} == s.pollers - {p};
  }

  /** The replay loop. */
  lemma {:induction false} ReplayIsRun(s: State, p: nat, ready: seq<Entry>, accepted: set<Entry>, stored: set<Entry>, removable: set<Entry>)
    returns (acts: seq<Action>, t: State)
    requires p in s.pollers && s.pollers[p].removing.None? && s.pollers[p].ready.Keys == Members(ready) && Distinct(ready)
    ensures Exec(s, acts) == Some(t)
    ensures p in t.pollers && t.pollers[p] == s.pollers[p].(ready := map[])
    ensures t.pollers - {p} == s.pollers - {p} && t.tasks == s.tasks
    ensures t.pending == s.pending - Both(ready, accepted, removable)
    ensures s.dedup <= t.dedup && forall e :: e in ready && e in accepted * stored ==> Replayed(e) in t.dedup
    decreases |ready|
  {
    if ready == [] {
      assert s.pollers[p].ready == map[];
      return [], s;
    }
    var e, later := ready[0], ready[1..];
    var first, u := OfferIsRun(s, p, e, accepted, stored, removable);
    MembersOfRest(ready);
    var rest;
    rest, t := ReplayIsRun(u, p, later, accepted, stored, removable);
    acts := first + rest;
    ExecThen(s, first, rest);
    BothOfRest(ready, accepted, removable);
  }

  lemma MembersOfRest(ready: seq<Entry>)
    requires ready != [] && Distinct(ready)
    ensures Members(ready[1..]) == Members(ready) - {ready[0]} && Distinct(ready[1..])
  {
    assert ready == [ready[0]] + ready[1..];
    assert ready[0] !in ready[1..];
  }

  lemma BothOfRest(ready: seq<Entry>, xs: set<Entry>, ys: set<Entry>)
    requires ready != []
    ensures Both(ready, xs, ys) == Both(ready[1..], xs, ys) + if ready[0] in xs && ready[0] in ys then {ready[0]} else {}
  {
    assert ready == [ready[0]] + ready[1..];
  }

  lemma {:induction false} KeepIsDistinct(s: seq<Entry>, xs: set<Entry>)
    requires Distinct(s)
    ensures Distinct(Keep(s, xs)) && Members(Keep(s, xs)) == Members(s) * xs
  {
    if s != [] {
      var init, last := s[..|s| - 1], s[|s| - 1];
      assert s == init + [last];
      KeepIsDistinct(init, xs);
      LcPoller.Members(init, xs, last);
      assert last !in init;
      assert Distinct(Keep(s, xs));
    }
    forall e ensures e in Members(Keep(s, xs)) <==> e in Members(s) * xs { LcPoller.Members(s, xs, e); }
  }

  /**
   * `LcPoller.Poller.Poll` as the protocol sees it: for every parked sequence that lists the pending set, there is a
   * run of one new poller that ends with the same pending set, and the stream knows the id of every entry that was
   * replayed and stored.
   */
  lemma PollIsRun(s: State, p: nat, parked: seq<Entry>, tip: nat, accepted: set<Entry>, stored: set<Entry>,
                  removable: set<Entry>)
    returns (acts: seq<Action>, t: State)
    requires p !in s.pollers && Distinct(parked) && Members(parked) == s.pending.Keys
    ensures Exec(s, acts) == Some(t) && t.pollers == s.pollers && t.tasks == s.tasks
    ensures var sent := Due(parked, tip) * accepted;
            && t.pending == s.pending - sent * removable && t.pending.Keys == Members(Without(parked, sent * removable))
            && s.dedup <= t.dedup && forall e :: e in Keep(parked, sent) && e in stored ==> Replayed(e) in t.dedup
  {
    var ready := Keep(parked, Due(parked, tip));
    KeepIsDistinct(parked, Due(parked, tip));
    var a := ReadTip(p, tip);
    var u := Step(s, a);
    assert u.pollers[p].ready.Keys == Members(ready);
    var middle, v := ReplayIsRun(u, p, ready, accepted, stored, removable);
    t := Step(v, EndTick(p));
    ExecCons(v, EndTick(p), []);
    assert [EndTick(p)] + [] == [EndTick(p)];
    ExecThen(u, middle, [EndTick(p)]);
    ExecCons(s, a, middle + [EndTick(p)]);
    acts := [a] + (middle + [EndTick(p)]);
    assert t.pollers == v.pollers - {p} == u.pollers - {p} == s.pollers;
    BothOfDue(parked, tip, accepted, removable);
    var sent := Due(parked, tip) * accepted;
    assert t.pending == s.pending - sent * removable;
    forall e ensures e in t.pending <==> e in Members(Without(parked, sent * removable)) {
      LcPoller.Members(parked, sent * removable, e);
    }
    forall e | e in Keep(parked, sent) && e in stored ensures Replayed(e) in t.dedup {
      LcPoller.Members(parked, sent, e);
      LcPoller.Members(parked, Due(parked, tip), e);
    }
  }
}
