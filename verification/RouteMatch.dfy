/** Longest-prefix routing (omni-proxy/src/proxy.rs). */
module RouteMatch {
  import opened Wrappers

  /** The code's test: the prefix is the whole path, or ends where a `/` follows. */
  predicate Matches(prefix: string, path: string) {
    path == prefix || (prefix <= path && |prefix| < |path| && path[|prefix|] == '/')
  }

  /** The best prefix among those that match, by length. */
  ghost predicate IsBest(prefixes: set<string>, path: string, best: Option<string>) {
    match best
    case None => forall p | p in prefixes :: !Matches(p, path)
    case Some(b) => b in prefixes && Matches(b, path) && forall p | p in prefixes && Matches(p, path) :: |p| <= |b|
  }

  function Keys(order: seq<string>): set<string> { set p | p in order }

  /** `order` is the sequence in which the hash map happens to yield its keys. */
  method MatchRoute(order: seq<string>, path: string) returns (best: Option<string>)
    ensures IsBest(Keys(order), path, best)
  {
    best := None;
    for i := 0 to |order|
      invariant IsBest(Keys(order[..i]), path, best)
    {
      var p := order[i];
      assert forall q :: q in order[..i + 1] <==> q in order[..i] || q == p;
      if Matches(p, path) && (best.None? || |p| >= |best.value|) {
        best := Some(p);
      }
    }
    assert order[..|order|] == order;
  }

  /** Two matching prefixes of the same length are the same. */
  lemma SameLengthSamePrefix(p: string, q: string, path: string)
    requires Matches(p, path) && Matches(q, path) && |p| == |q|
    ensures p == q
  {
    assert p == path[..|p|];
    assert q == path[..|q|];
  }

  /** The choice depends on the set of routes only, not on the order in which they are visited. */
  lemma BestIsUnique(prefixes: set<string>, path: string, a: Option<string>, b: Option<string>)
    requires IsBest(prefixes, path, a) && IsBest(prefixes, path, b)
    ensures a == b
  {
    if a.Some? && b.Some? {
      assert |a.value| <= |b.value| <= |a.value|;
      SameLengthSamePrefix(a.value, b.value, path);
    }
  }

  // ----- What matching means for path segments -----

  /** Puts a character in front of the first segment. */
  function Push(c: char, segments: seq<string>): (r: seq<string>)
    requires segments != []
    ensures |r| == |segments|
  {
    [[c] + segments[0]] + segments[1..]
  }

  function Split(s: string): (r: seq<string>)
    ensures |r| >= 1
  {
    if s == "" then [""]
    else if s[0] == '/' then [""] + Split(s[1..])
    else Push(s[0], Split(s[1..]))
  }

  function Join(segments: seq<string>): string
    requires segments != []
  {
    if |segments| == 1 then segments[0] else segments[0] + ("/" + Join(segments[1..]))
  }

  lemma JoinOfPush(c: char, segments: seq<string>)
    requires segments != []
    ensures Join(Push(c, segments)) == [c] + Join(segments)
  {
    assert Push(c, segments)[1..] == segments[1..];
    if |segments| > 1 {
      var tail := "/" + Join(segments[1..]);
      assert [c] + (segments[0] + tail) == ([c] + segments[0]) + tail;
    }
  }

  lemma PushOfConcat(c: char, a: seq<string>, b: seq<string>)
    requires a != []
    ensures Push(c, a + b) == Push(c, a) + b
  {
    assert (a + b)[1..] == a[1..] + b;
  }

  lemma {:induction false} JoinOfSplit(s: string)
    ensures Join(Split(s)) == s
  {
    if s != "" {
      var rest := Split(s[1..]);
      JoinOfSplit(s[1..]);
      assert s == [s[0]] + s[1..];
      if s[0] == '/' {
        assert ([""] + rest)[1..] == rest;
      } else {
        JoinOfPush(s[0], rest);
      }
    }
  }

  lemma SplitCons(c: char, rest: string)
    ensures Split([c] + rest) == if c == '/' then [""] + Split(rest) else Push(c, Split(rest))
  {
    assert ([c] + rest)[1..] == rest;
  }

  lemma {:induction false} SplitAtSlash(p: string, rest: string)
    ensures Split(p + ("/" + rest)) == Split(p) + Split(rest)
  {
    if p == "" {
      assert p + ("/" + rest) == ['/'] + rest;
      SplitCons('/', rest);
    } else {
      SplitAtSlash(p[1..], rest);
      assert p == [p[0]] + p[1..];
      SplitAtSlashCons(p[0], p[1..], rest);
    }
  }

  lemma ConcatCons(c: char, later: string, rest: string)
    ensures ([c] + later) + rest == [c] + (later + rest)
  {
  }

  lemma SplitAtSlashCons(c: char, later: string, rest: string)
    requires Split(later + ("/" + rest)) == Split(later) + Split(rest)
    ensures Split(([c] + later) + ("/" + rest)) == Split([c] + later) + Split(rest)
  {
    var front, back := Split(later), Split(rest);
    ConcatCons(c, later, "/" + rest);
    SplitCons(c, later);
    SplitCons(c, later + ("/" + rest));
    if c == '/' {
      EmptyFirst(front, back);
    } else {
      PushOfConcat(c, front, back);
    }
  }

  lemma EmptyFirst(a: seq<string>, b: seq<string>)
    ensures [""] + (a + b) == ([""] + a) + b
  {
  }

  lemma {:induction false} JoinOfConcat(a: seq<string>, b: seq<string>)
    requires a != [] && b != []
    ensures Join(a + b) == Join(a) + ("/" + Join(b))
  {
    assert (a + b)[1..] == a[1..] + b;
    if |a| > 1 {
      JoinOfConcat(a[1..], b);
      assert a[0] + ("/" + (Join(a[1..]) + ("/" + Join(b)))) == (a[0] + ("/" + Join(a[1..]))) + ("/" + Join(b));
    }
  }

  /** Matching is being a prefix segment by segment, for all prefixes and paths. */
  lemma MatchesIffSegmentPrefix(prefix: string, path: string)
    ensures Matches(prefix, path) <==> Split(prefix) <= Split(path)
  {
    if Matches(prefix, path) {
      if path != prefix {
        var rest := path[|prefix| + 1..];
        assert path == prefix + ("/" + rest);
        SplitAtSlash(prefix, rest);
      }
    }
    if Split(prefix) <= Split(path) {
      var a := Split(prefix);
      var b := Split(path)[|a|..];
      assert Split(path) == a + b;
      JoinOfSplit(prefix);
      JoinOfSplit(path);
      if b == [] {
        assert a + b == a;
      } else {
        JoinOfConcat(a, b);
        assert path == prefix + ("/" + Join(b));
      }
    }
  }

  lemma {:induction false} LongerHasMoreSegments(p: string, q: string)
    requires p <= q
    ensures |Split(p)| <= |Split(q)|
  {
    if p != "" { LongerHasMoreSegments(p[1..], q[1..]); }
  }

  /** The chosen route is the one whose segments are the longest prefix of the path's segments. */
  lemma BestHasMostSegments(prefixes: set<string>, path: string, best: string, p: string)
    requires IsBest(prefixes, path, Some(best)) && p in prefixes && Split(p) <= Split(path)
    ensures Split(p) <= Split(best) <= Split(path)
  {
    MatchesIffSegmentPrefix(p, path);
    MatchesIffSegmentPrefix(best, path);
    assert p == path[..|p|] && best == path[..|best|];
    assert p == best[..|p|];
    LongerHasMoreSegments(p, best);
  }
}
