/** The in-process rate limiter: a fixed window per bucket and client, with stale windows pruned once a minute. */
module RateLimit {
  datatype Key = Key(bucket: string, ip: string)

  datatype Hit = Hit(start: real, count: nat)

  type Hits = map<Key, Hit>

  datatype Request = Request(now: real, key: Key, limit: int, window: real)

  datatype Decision = Admitted | Refused(retryAfter: int)

  /** Python's int(): towards zero. */
  function Truncate(x: real): int {
    if x < 0.0 then -((-x).Floor) else x.Floor
  }

  function Max(a: int, b: int): int {
    if a < b then b else a
  }

  /** The client's window after one more hit. */
  function Bump(hits: Hits, r: Request): Hit {
    var h := if r.key in hits then hits[r.key] else Hit(r.now, 0);
    if r.now - h.start >= r.window then Hit(r.now, 1) else Hit(h.start, h.count + 1)
  }

  function Decide(h: Hit, r: Request): Decision {
    if h.count > r.limit then Refused(Max(1, Truncate(r.window - (r.now - h.start)) + 1)) else Admitted
  }

  // --- the limiter -----------------------------------------------------------------------------

  datatype State = State(hits: Hits, lastPrune: real)

  function Fresh(hits: Hits, now: real): Hits {
    map key | key in hits && now - hits[key].start <= 3600.0 :: hits[key]
  }

  function Pruned(s: State, now: real): State {
    if now - s.lastPrune < 60.0 then s else State(Fresh(s.hits, now), now)
  }

  function Check(s: State, r: Request): (State, Decision) {
    var p := Pruned(s, r.now);
    var h := Bump(p.hits, r);
    (State(p.hits[r.key := h], p.lastPrune), Decide(h, r))
  }

  class Limiter {
    var hits: Hits
    var lastPrune: real

    constructor ()
      ensures Contents() == State(map[], 0.0)
    {
      hits, lastPrune := map[], 0.0;
    }

    function Contents(): State
      reads this
    {
      State(hits, lastPrune)
    }

    /** _prune */
    method Prune(now: real)
      modifies this
      ensures Contents() == Pruned(old(Contents()), now)
    {
      if now - lastPrune < 60.0 {
        return;
      }
      lastPrune := now;
      var stale := set key | key in hits && now - hits[key].start > 3600.0;
      hits := hits - stale;
      assert hits == Fresh(old(hits), now);
    }

    /** check, while rate limiting is enabled */
    method Register(r: Request) returns (d: Decision)
      modifies this
      ensures (Contents(), d) == Check(old(Contents()), r)
    {
      Prune(r.now);
      var start, count := r.now, 0;
      if r.key in hits {
        start, count := hits[r.key].start, hits[r.key].count;
      }
      if r.now - start >= r.window {
        start, count := r.now, 0;
      }
      count := count + 1;
      hits := hits[r.key := Hit(start, count)];
      if count > r.limit {
        return Refused(Max(1, Truncate(r.window - (r.now - start)) + 1));
      }
      return Admitted;
    }
  }

  // --- the limiter that never prunes ---------------------------------------------------------------

  function Plain(hits: Hits, r: Request): (Hits, Decision) {
    var h := Bump(hits, r);
    (hits[r.key := h], Decide(h, r))
  }

  function Serve(s: State, rs: seq<Request>): (State, seq<Decision>)
    decreases |rs|
  {
    if rs == [] then (s, [])
    else
      var (before, ds) := Serve(s, rs[..|rs| - 1]);
      var (next, d) := Check(before, rs[|rs| - 1]);
      (next, ds + [d])
  }

  function ServePlain(hits: Hits, rs: seq<Request>): (r: (Hits, seq<Decision>))
    ensures |r.1| == |rs|
    decreases |rs|
  {
    if rs == [] then (hits, [])
    else
      var (before, ds) := ServePlain(hits, rs[..|rs| - 1]);
      var (next, d) := Plain(before, rs[|rs| - 1]);
      (next, ds + [d])
  }

  predicate Ordered(rs: seq<Request>) {
    forall i, j :: 0 <= i < j < |rs| ==> rs[i].now <= rs[j].now
  }

  predicate WindowsUpTo(rs: seq<Request>, w: real) {
    forall i :: 0 <= i < |rs| ==> rs[i].window <= w
  }

  /** What pruning has forgotten is older than an hour. */
  ghost predicate Matches(pruned: Hits, all: Hits, now: real) {
    && (forall key :: key in pruned ==> key in all && all[key] == pruned[key])
    && (forall key :: key in all && key !in pruned ==> now - all[key].start > 3600.0)
  }

  lemma CheckMatches(s: State, all: Hits, r: Request, before: real)
    requires Matches(s.hits, all, before) && before <= r.now && r.window <= 3600.0
    ensures Check(s, r).1 == Plain(all, r).1
    ensures Matches(Check(s, r).0.hits, Plain(all, r).0, r.now)
  {
    var p := Pruned(s, r.now);
    assert Matches(p.hits, all, r.now);
    assert Bump(p.hits, r) == Bump(all, r);
  }

  /**
    * Over requests in time order with windows of at most an hour, the limiter decides like one that never
    * prunes, Retry-After included.
    */
  lemma {:induction false} PruningUnnoticed(rs: seq<Request>)
    requires Ordered(rs) && WindowsUpTo(rs, 3600.0)
    ensures Serve(State(map[], 0.0), rs).1 == ServePlain(map[], rs).1
    ensures rs != [] ==> Matches(Serve(State(map[], 0.0), rs).0.hits, ServePlain(map[], rs).0, rs[|rs| - 1].now)
    decreases |rs|
  {
    if rs != [] {
      var n := |rs| - 1;
      PruningUnnoticed(rs[..n]);
      CheckMatches(Serve(State(map[], 0.0), rs[..n]).0, ServePlain(map[], rs[..n]).0, rs[n],
                   if n == 0 then rs[n].now else rs[n - 1].now);
    }
  }

  /** Two requests of one client, just more than an hour apart. */
  function Apart(window: real): seq<Request> {
    var key := Key("login", "client");
    [Request(60.0, key, 1, window), Request(60.0 + (3600.0 + window) / 2.0, key, 1, window)]
  }

  /** With a longer window pruning is noticed: it lets a hit through that the window still forbids. */
  lemma LongWindowsForgotten(window: real)
    requires window > 3600.0
    ensures Ordered(Apart(window)) && WindowsUpTo(Apart(window), window)
    ensures Serve(State(map[], 0.0), Apart(window)).1 == [Admitted, Admitted]
    ensures ServePlain(map[], Apart(window)).1[1].Refused?
  {
    var rs := Apart(window);
    var key := rs[0].key;
    assert rs[..1] == [rs[0]] && [rs[0]][..0] == [];
    var none: seq<Decision> := [];
    assert none + [Admitted] == [Admitted];
    assert Fresh(map[], 60.0) == map[];
    assert Serve(State(map[], 0.0), []) == (State(map[], 0.0), []) && ServePlain(map[], []) == (map[], []);
    assert Bump(map[], rs[0]) == Hit(60.0, 1);
    assert Check(State(map[], 0.0), rs[0]) == (State(map[key := Hit(60.0, 1)], 60.0), Admitted);
    assert Serve(State(map[], 0.0), [rs[0]]) == (State(map[key := Hit(60.0, 1)], 60.0), [Admitted]);
    assert ServePlain(map[], [rs[0]]) == (map[key := Hit(60.0, 1)], [Admitted]);
    var p := Pruned(State(map[key := Hit(60.0, 1)], 60.0), rs[1].now);
    assert p.hits == map[];
    assert Bump(p.hits, rs[1]) == Hit(rs[1].now, 1);
    assert Bump(map[key := Hit(60.0, 1)], rs[1]) == Hit(60.0, 2);
  }

  /** Exactly the windows of at most an hour are safe to prune. */
  lemma PruningUnnoticedIff(window: real)
    ensures (forall rs: seq<Request> :: Ordered(rs) && WindowsUpTo(rs, window) ==>
              Serve(State(map[], 0.0), rs).1 == ServePlain(map[], rs).1) <==> window <= 3600.0
  {
    if window <= 3600.0 {
      forall rs: seq<Request> | Ordered(rs) && WindowsUpTo(rs, window)
        ensures Serve(State(map[], 0.0), rs).1 == ServePlain(map[], rs).1
      {
        PruningUnnoticed(rs);
      }
    } else {
      LongWindowsForgotten(window);
      assert ServePlain(map[], Apart(window)).1 != [Admitted, Admitted];
    }
  }

  // --- how much gets through -------------------------------------------------------------------------

  /** The admitted hits of a key at or after a. */
  function AdmittedFrom(rs: seq<Request>, ds: seq<Decision>, key: Key, a: real): nat
    requires |rs| == |ds|
  {
    if rs == [] then 0
    else
      var n := |rs| - 1;
      AdmittedFrom(rs[..n], ds[..n], key, a) +
      (if rs[n].key == key && ds[n] == Admitted && a <= rs[n].now then 1 else 0)
  }

  /** Those of them before b. */
  function AdmittedBetween(rs: seq<Request>, ds: seq<Decision>, key: Key, a: real, b: real): nat
    requires |rs| == |ds|
  {
    if rs == [] then 0
    else
      var n := |rs| - 1;
      AdmittedBetween(rs[..n], ds[..n], key, a, b) +
      (if rs[n].key == key && ds[n] == Admitted && a <= rs[n].now < b then 1 else 0)
  }

  lemma {:induction false} BetweenAtMostFrom(rs: seq<Request>, ds: seq<Decision>, key: Key, a: real, b: real)
    requires |rs| == |ds|
    ensures AdmittedBetween(rs, ds, key, a, b) <= AdmittedFrom(rs, ds, key, a)
    decreases |rs|
  {
    if rs != [] {
      BetweenAtMostFrom(rs[..|rs| - 1], ds[..|rs| - 1], key, a, b);
    }
  }

  function Least(a: int, b: int): int {
    if a < b then a else b
  }

  /** Every request of the key comes with the same limit and window. */
  predicate Uniform(rs: seq<Request>, key: Key, limit: nat, window: real) {
    forall i :: 0 <= i < |rs| && rs[i].key == key ==> rs[i].limit == limit && rs[i].window == window
  }

  /** How many hits can have been admitted from a on, when the key's current window is h. */
  predicate Budget(h: Hit, limit: nat, window: real, a: real, admitted: nat) {
    && (a >= h.start ==> admitted <= Least(h.count, limit))
    && (a > h.start - window ==> admitted <= limit + Least(h.count, limit))
    && (a >= h.start + window ==> admitted == 0)
  }

  lemma BudgetNext(h: Hit, r: Request, limit: nat, window: real, a: real, admitted: nat)
    requires window > 0.0 && Budget(h, limit, window, a, admitted) && h.start <= r.now
    ensures var next := if r.now - h.start >= window then Hit(r.now, 1) else Hit(h.start, h.count + 1);
            var more := admitted + (if next.count <= limit && a <= r.now then 1 else 0);
            Budget(next, limit, window, a, more) && (a <= r.now < a + window ==> more <= 2 * limit)
  {}

  /** What a prefix of the requests leaves in a key's window, and what it has admitted. */
  ghost predicate Accounted(rs: seq<Request>, key: Key, limit: nat, window: real, a: real) {
    var (hits, ds) := ServePlain(map[], rs);
    && (key !in hits ==> AdmittedFrom(rs, ds, key, a) == 0)
    && (key in hits ==> rs != [] && hits[key].start <= rs[|rs| - 1].now)
    && (key in hits ==> Budget(hits[key], limit, window, a, AdmittedFrom(rs, ds, key, a)))
    && AdmittedBetween(rs, ds, key, a, a + window) <= 2 * limit
  }

  lemma {:induction false} AccountedAlways(rs: seq<Request>, key: Key, limit: nat, window: real, a: real)
    requires Ordered(rs) && Uniform(rs, key, limit, window) && window > 0.0
    ensures Accounted(rs, key, limit, window, a)
    decreases |rs|
  {
    if rs != [] {
      var n := |rs| - 1;
      AccountedAlways(rs[..n], key, limit, window, a);
      var (before, ds) := ServePlain(map[], rs[..n]);
      var all := ServePlain(map[], rs).1;
      assert all[..n] == ds;
      BetweenAtMostFrom(rs, all, key, a, a + window);
      if rs[n].key == key {
        var h := if key in before then before[key] else Hit(rs[n].now, 0);
        assert n > 0 ==> rs[n - 1].now <= rs[n].now;
        BudgetNext(h, rs[n], limit, window, a, AdmittedFrom(rs[..n], ds, key, a));
      }
    }
  }

  /** In no half-open interval of one window's length are more than twice the limit of a key's hits admitted. */
  lemma AtMostTwiceTheLimit(rs: seq<Request>, key: Key, limit: nat, window: real, a: real)
    requires Ordered(rs) && Uniform(rs, key, limit, window) && 0.0 < window
    requires WindowsUpTo(rs, 3600.0)
    ensures var ds := Serve(State(map[], 0.0), rs).1;
            |ds| == |rs| && AdmittedBetween(rs, ds, key, a, a + window) <= 2 * limit
  {
    PruningUnnoticed(rs);
    AccountedAlways(rs, key, limit, window, a);
  }

  // --- waiting --------------------------------------------------------------------------------------

  lemma {:induction false} WindowUntouched(s: State, rs: seq<Request>, key: Key)
    requires forall i :: 0 <= i < |rs| ==> rs[i].key != key
    ensures var last := Serve(s, rs).0;
            key in last.hits ==> key in s.hits && last.hits[key] == s.hits[key]
    decreases |rs|
  {
    if rs != [] {
      WindowUntouched(s, rs[..|rs| - 1], key);
    }
  }

  /** A refused client that waits as long as it was told, whatever others do meanwhile, is admitted. */
  lemma {:induction false} WaitingIsEnough(s: State, r: Request, others: seq<Request>, again: Request)
    requires Check(s, r).1.Refused? && r.limit >= 1
    requires forall i :: 0 <= i < |others| ==> others[i].key != r.key
    requires again.key == r.key && again.limit == r.limit && again.window == r.window
    requires again.now >= r.now + Check(s, r).1.retryAfter as real
    ensures Check(Serve(Check(s, r).0, others).0, again).1 == Admitted
  {
    var (next, d) := Check(s, r);
    var last := Serve(next, others).0;
    WindowUntouched(next, others, r.key);
    var start := next.hits[r.key].start;
    var left := r.window - (r.now - start);
    assert d.retryAfter as real >= left by {
      assert d.retryAfter >= Truncate(left) + 1;
    }
    var p := Pruned(last, again.now);
    if r.key in p.hits {
      assert p.hits[r.key] == next.hits[r.key];
    }
  }
}
