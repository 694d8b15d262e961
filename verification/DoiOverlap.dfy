/** How far overlapping mints can exceed the monthly cap: by one less than the requests in flight, and no further. */
module DoiOverlap {
  import opened Doi
  import opened DoiLaws
  import opened Wrappers

  // --- requests in flight --------------------------------------------------------------------------

  predicate InWorkspace(st: State, card: string, ws: string) {
    card in st.cards && st.cards[card].workspace == ws
  }

  function WaitingOf(st: State, ws: string): set<nat> {
    set id | id in st.waiting && InWorkspace(st, st.waiting[id].card, ws)
  }

  function HoldersOf(st: State, ws: string): set<string> {
    set card | card in st.holders && InWorkspace(st, card, ws)
  }

  /** The requests of a workspace that have begun and not ended. */
  function InFlight(st: State, ws: string): nat {
    |WaitingOf(st, ws)| + |HoldersOf(st, ws)|
  }

  /** At no time of the run are more than k requests of the workspace in flight. */
  predicate Within(caps: Caps, st: State, steps: seq<Step>, ws: string, k: nat)
    decreases |steps|
  {
    && InFlight(Execute(caps, st, steps), ws) <= k
    && (steps != [] ==> Within(caps, st, steps[..|steps| - 1], ws, k))
  }

  /** Those that have passed the quota check. */
  function SpendingOf(st: State, ws: string): (r: set<string>)
    ensures r <= HoldersOf(st, ws)
  {
    set card | card in st.holders && InWorkspace(st, card, ws) && Spending(st, card)
  }

  lemma {:induction false} Fewer<T>(a: set<T>, b: set<T>)
    requires a <= b
    ensures |a| <= |b|
  {
    if a != {} {
      var x :| x in a;
      Fewer(a - {x}, b - {x});
    }
  }

  // --- the bound -----------------------------------------------------------------------------------

  ghost predicate Bounded(st: State, ws: string, cap: nat, k: nat) {
    && (forall month :: CountMinted(st.rows, ws, month) < cap + k)
    && (cap == 0 ==> forall month :: CountMinted(st.rows, ws, month) == 0)
    && (SpendingOf(st, ws) != {} ==>
          cap > 0 && CountMinted(st.rows, ws, st.month) + |SpendingOf(st, ws)| < cap + k)
  }

  /** A step that commits nothing and lets no request pass the quota check. */
  lemma OtherKeepsBound(st: State, next: State, ws: string, cap: nat, k: nat)
    requires Bounded(st, ws, cap, k) && next.rows == st.rows && next.month == st.month
    requires SpendingOf(next, ws) <= SpendingOf(st, ws)
    ensures Bounded(next, ws, cap, k)
  {
    Fewer(SpendingOf(next, ws), SpendingOf(st, ws));
  }

  lemma SpendingWithin(st: State, ws: string, k: nat)
    requires InFlight(st, ws) <= k
    ensures |SpendingOf(st, ws)| <= k
  {
    Fewer(SpendingOf(st, ws), HoldersOf(st, ws));
  }

  lemma MonthKeepsBound(st: State, ws: string, cap: nat, k: nat)
    requires Bounded(st, ws, cap, k) && NoLaterRows(st) && InFlight(st, ws) <= k
    ensures Bounded(st.(month := st.month + 1), ws, cap, k)
  {
    var next := st.(month := st.month + 1);
    assert SpendingOf(next, ws) == SpendingOf(st, ws);
    SpendingWithin(st, ws, k);
    NothingMintedLater(st.rows, ws, next.month);
  }

  lemma QuotaKeepsBound(caps: Caps, st: State, card: string, ws: string, cap: nat, k: nat)
    requires caps(ws) == Some(cap) && LocksGood(st) && card in st.holders && Bounded(st, ws, cap, k)
    requires InFlight(AfterQuota(caps, st, card), ws) <= k
    ensures Bounded(AfterQuota(caps, st, card), ws, cap, k)
  {
    var next := AfterQuota(caps, st, card);
    SpendingWithin(next, ws, k);
    if st.holders[card].phase == Locked && !AtCap(caps, st.rows, st.cards[card].workspace, st.month) {
      if st.cards[card].workspace != ws {
        assert SpendingOf(next, ws) == SpendingOf(st, ws);
      }
    } else {
      assert SpendingOf(next, ws) <= SpendingOf(st, ws);
      OtherKeepsBound(st, next, ws, cap, k);
    }
  }

  lemma CommitKeepsBound(st: State, card: string, ws: string, cap: nat, k: nat)
    requires LocksGood(st) && card in st.holders && Bounded(st, ws, cap, k)
    ensures Bounded(AfterCommit(st, card), ws, cap, k)
  {
    if st.holders[card].phase.Minted? {
      var next := AfterCommit(st, card);
      var row := MintRow(st.cards[card].workspace, card, st.month, st.holders[card].phase.doi);
      assert SpendingOf(next, ws) == SpendingOf(st, ws) - {card};
      assert row.workspace == ws ==> card in SpendingOf(st, ws);
      forall month
        ensures CountMinted(next.rows, ws, month) ==
                CountMinted(st.rows, ws, month) + (if row.workspace == ws && st.month == month then 1 else 0)
      {
        CountMintedSnoc(st.rows, row, ws, month);
      }
    }
  }

  lemma StepKeepsBound(caps: Caps, st: State, s: Step, ws: string, cap: nat, k: nat)
    requires caps(ws) == Some(cap) && LocksGood(st) && NoLaterRows(st) && Bounded(st, ws, cap, k)
    requires InFlight(st, ws) <= k && InFlight(Next(caps, st, s), ws) <= k
    ensures Bounded(Next(caps, st, s), ws, cap, k)
  {
    if s.NextMonth? {
      MonthKeepsBound(st, ws, cap, k);
    } else if s.Proceed? && s.card in st.holders && s.move.Commit? {
      CommitKeepsBound(st, s.card, ws, cap, k);
    } else if s.Proceed? && s.card in st.holders && s.move.Quota? {
      QuotaKeepsBound(caps, st, s.card, ws, cap, k);
    } else {
      SpendsNoMore(caps, st, s, ws);
      OtherKeepsBound(st, Next(caps, st, s), ws, cap, k);
    }
  }

  lemma SpendsNoMore(caps: Caps, st: State, s: Step, ws: string)
    requires LocksGood(st) && !s.NextMonth? &&
             !(s.Proceed? && s.card in st.holders && (s.move.Commit? || s.move.Quota?))
    ensures var next := Next(caps, st, s);
            next.rows == st.rows && next.month == st.month && SpendingOf(next, ws) <= SpendingOf(st, ws)
  {}

  /** Nothing is minted and nothing is in flight. */
  ghost predicate Fresh(st: State) {
    && Idle(st) && st.rows == [] && st.registered == [] && st.lost == []
    && forall card :: card in st.cards ==> st.cards[card].doi.None?
  }

  lemma {:induction false} BoundStays(caps: Caps, st: State, steps: seq<Step>, ws: string, cap: nat, k: nat)
    requires caps(ws) == Some(cap) && Within(caps, st, steps, ws, k)
    requires LocksGood(st) && NoLaterRows(st) && Bounded(st, ws, cap, k)
    ensures var last := Execute(caps, st, steps); LocksGood(last) && NoLaterRows(last) && Bounded(last, ws, cap, k)
    decreases |steps|
  {
    if steps != [] {
      var n := |steps| - 1;
      BoundStays(caps, st, steps[..n], ws, cap, k);
      var before := Execute(caps, st, steps[..n]);
      StepKeepsLocks(caps, before, steps[n]);
      StepKeepsMonths(caps, before, steps[n]);
      StepKeepsBound(caps, before, steps[n], ws, cap, k);
    }
  }

  /**
    * Over every interleaving with at most k requests in flight a workspace mints at most cap + k - 1 DOIs in a
    * month, and none under a cap of zero.
    */
  lemma {:induction false} MintedAtMost(caps: Caps, st: State, steps: seq<Step>, ws: string, cap: nat, k: nat,
      month: int)
    requires caps(ws) == Some(cap) && Fresh(st) && k > 0 && Within(caps, st, steps, ws, k)
    ensures CountMinted(Execute(caps, st, steps).rows, ws, month) <= if cap == 0 then 0 else cap + k - 1
  {
    assert SpendingOf(st, ws) == {};
    BoundStays(caps, st, steps, ws, cap, k);
  }

  // --- the bound is reached ----------------------------------------------------------------------------

  ghost predicate Mintable(st: State, card: string, ws: string) {
    card in st.cards && st.cards[card] == Card(ws, None, true)
  }

  ghost predicate AllMintable(st: State, cards: seq<string>, ws: string) {
    && (forall i :: 0 <= i < |cards| ==> Mintable(st, cards[i], ws))
    && forall i, j :: 0 <= i < j < |cards| ==> cards[i] != cards[j]
  }

  lemma {:induction false} ExecuteConcat(caps: Caps, st: State, a: seq<Step>, b: seq<Step>)
    ensures Execute(caps, st, a + b) == Execute(caps, Execute(caps, st, a), b)
    decreases |b|
  {
    if b == [] {
      assert a + b == a;
    } else {
      assert (a + b)[..|a + b| - 1] == a + b[..|b| - 1];
      ExecuteConcat(caps, st, a, b[..|b| - 1]);
    }
  }

  lemma {:induction false} WithinConcat(caps: Caps, st: State, a: seq<Step>, b: seq<Step>, ws: string, k: nat)
    requires Within(caps, st, a, ws, k) && Within(caps, Execute(caps, st, a), b, ws, k)
    ensures Within(caps, st, a + b, ws, k)
    decreases |b|
  {
    if b == [] {
      assert a + b == a;
    } else {
      assert (a + b)[..|a + b| - 1] == a + b[..|b| - 1];
      WithinConcat(caps, st, a, b[..|b| - 1], ws, k);
      ExecuteConcat(caps, st, a, b);
    }
  }

  lemma {:induction false} WithinNext(caps: Caps, st: State, steps: seq<Step>, s: Step, ws: string, k: nat)
    requires Within(caps, st, steps, ws, k) && InFlight(Next(caps, Execute(caps, st, steps), s), ws) <= k
    ensures Within(caps, st, steps + [s], ws, k)
    ensures Execute(caps, st, steps + [s]) == Next(caps, Execute(caps, st, steps), s)
  {
    assert (steps + [s])[..|steps|] == steps;
  }

  lemma {:induction false} ElementsAtMost(cards: seq<string>)
    ensures |set card | card in cards| <= |cards|
  {
    if cards != [] {
      var n := |cards| - 1;
      ElementsAtMost(cards[..n]);
      assert (set card | card in cards) == (set card | card in cards[..n]) + {cards[n]};
    }
  }

  /** All holders are among the given cards, and nobody waits. */
  lemma InFlightAtMost(st: State, ws: string, cards: seq<string>)
    requires st.waiting == map[] && forall card :: card in st.holders ==> card in cards
    ensures InFlight(st, ws) <= |cards|
  {
    ElementsAtMost(cards);
    assert WaitingOf(st, ws) == {};
    Fewer(HoldersOf(st, ws), set card | card in cards);
  }

  /** A mint up to the provider's answer; the DOI is called like the card. */
  function Prepare(card: string): seq<Step> {
    [Begin(0, card, Mint)] + [Acquire(0)] + [Proceed(card, Quota)] + [Proceed(card, Provider(Some(card)))]
  }

  function Ready(st: State, card: string): State {
    Held(st, card, Minted(card)).(registered := st.registered + [card])
  }

  function Held(st: State, card: string, phase: Phase): State {
    st.(holders := st.holders[card := Holder(Mint, phase)])
  }

  lemma HeldTwice(st: State, card: string, first: Phase, second: Phase)
    ensures Held(Held(st, card, first), card, second) == Held(st, card, second)
  {
    assert Held(Held(st, card, first), card, second).holders == Held(st, card, second).holders;
  }

  /** A mint of a free card waits for its lock, and takes it. */
  lemma TakesLock(caps: Caps, st: State, card: string, ws: string)
    requires st.waiting == map[] && Mintable(st, card, ws) && card !in st.holders
    ensures var begun := Next(caps, st, Begin(0, card, Mint));
            && begun == st.(waiting := map[0 := Request(card, Mint)])
            && Next(caps, begun, Acquire(0)) == Held(st, card, Locked)
  {
    assert map[0 := Request(card, Mint)] - {0} == map[];
  }

  lemma OneMoreInFlight(st: State, card: string, phase: Phase, ws: string, held: seq<string>)
    requires st.waiting == map[] && forall c :: c in st.holders ==> c in held
    ensures InFlight(st.(waiting := map[0 := Request(card, Mint)]), ws) <= |held| + 1
    ensures InFlight(Held(st, card, phase), ws) <= |held| + 1
  {
    InFlightAtMost(st, ws, held);
    var begun := st.(waiting := map[0 := Request(card, Mint)]);
    assert WaitingOf(begun, ws) <= {0} && HoldersOf(begun, ws) == HoldersOf(st, ws);
    Fewer(WaitingOf(begun, ws), {0});
    InFlightAtMost(Held(st, card, phase), ws, held + [card]);
  }

  /** The quota check and the provider's answer. */
  lemma Registers(caps: Caps, st: State, card: string, ws: string)
    requires Mintable(st, card, ws) && !AtCap(caps, st.rows, ws, st.month)
    ensures Next(caps, Held(st, card, Locked), Proceed(card, Quota)) == Held(st, card, Cleared)
    ensures Next(caps, Held(st, card, Cleared), Proceed(card, Provider(Some(card)))) == Ready(st, card)
  {
    HeldTwice(st, card, Locked, Cleared);
    HeldTwice(st, card, Cleared, Minted(card));
  }

  lemma {:induction false} PrepareRuns(caps: Caps, st: State, card: string, ws: string, held: seq<string>)
    requires st.waiting == map[] && Mintable(st, card, ws) && card !in st.holders && !AtCap(caps, st.rows, ws, st.month)
    requires forall c :: c in st.holders ==> c in held
    ensures Within(caps, st, Prepare(card), ws, |held| + 1) && Execute(caps, st, Prepare(card)) == Ready(st, card)
  {
    var k := |held| + 1;
    TakesLock(caps, st, card, ws);
    Registers(caps, st, card, ws);
    InFlightAtMost(st, ws, held);
    OneMoreInFlight(st, card, Locked, ws, held);
    OneMoreInFlight(st, card, Cleared, ws, held);
    InFlightAtMost(Ready(st, card), ws, held + [card]);
    var w1 := [Begin(0, card, Mint)];
    assert [] + w1 == w1;
    WithinNext(caps, st, [], Begin(0, card, Mint), ws, k);
    WithinNext(caps, st, w1, Acquire(0), ws, k);
    var w2 := w1 + [Acquire(0)];
    WithinNext(caps, st, w2, Proceed(card, Quota), ws, k);
    WithinNext(caps, st, w2 + [Proceed(card, Quota)], Proceed(card, Provider(Some(card))), ws, k);
  }

  function PrepareAll(cards: seq<string>): seq<Step> {
    if cards == [] then [] else PrepareAll(cards[..|cards| - 1]) + Prepare(cards[|cards| - 1])
  }

  predicate ReadyToCommit(st: State, card: string) {
    card in st.holders && st.holders[card] == Holder(Mint, Minted(card))
  }

  /** Exactly these cards are held, each with a registered DOI to commit. */
  ghost predicate AllReady(st: State, cards: seq<string>) {
    && st.waiting == map[] && (forall card :: card in st.holders ==> card in cards)
    && forall i :: 0 <= i < |cards| ==> ReadyToCommit(st, cards[i])
  }

  /** The first n are ready to commit, and nothing else has happened. */
  ghost predicate Prepared(base: State, st: State, cards: seq<string>, n: nat)
    requires n <= |cards|
  {
    st.cards == base.cards && st.rows == base.rows && st.month == base.month && AllReady(st, cards[..n])
  }

  lemma OneMoreReady(base: State, st: State, cards: seq<string>, n: nat)
    requires n < |cards| && Prepared(base, st, cards, n)
    ensures Prepared(base, Ready(st, cards[n]), cards, n + 1)
  {
    var next := Ready(st, cards[n]);
    forall i | 0 <= i <= n
      ensures ReadyToCommit(next, cards[i])
    {
      assert i < n ==> cards[..n][i] == cards[i];
    }
  }

  lemma PrepareNext(caps: Caps, base: State, steps: seq<Step>, cards: seq<string>, ws: string, n: nat)
    requires n < |cards| && Mintable(base, cards[n], ws) && cards[n] !in cards[..n] &&
             !AtCap(caps, base.rows, ws, base.month)
    requires Within(caps, base, steps, ws, n) && Prepared(base, Execute(caps, base, steps), cards, n)
    ensures Within(caps, base, steps + Prepare(cards[n]), ws, n + 1)
    ensures Prepared(base, Execute(caps, base, steps + Prepare(cards[n])), cards, n + 1)
  {
    var st := Execute(caps, base, steps);
    PrepareRuns(caps, st, cards[n], ws, cards[..n]);
    WithinMore(caps, base, steps, ws, n, n + 1);
    WithinConcat(caps, base, steps, Prepare(cards[n]), ws, n + 1);
    ExecuteConcat(caps, base, steps, Prepare(cards[n]));
    OneMoreReady(base, st, cards, n);
  }

  /** Every mint passes the quota check, because none has committed yet. */
  lemma {:induction false} AllPrepared(caps: Caps, st: State, cards: seq<string>, ws: string, n: nat)
    requires n <= |cards| && Idle(st) && AllMintable(st, cards, ws) && !AtCap(caps, st.rows, ws, st.month)
    ensures Within(caps, st, PrepareAll(cards[..n]), ws, n)
    ensures Prepared(st, Execute(caps, st, PrepareAll(cards[..n])), cards, n)
  {
    if n == 0 {
      InFlightAtMost(st, ws, []);
    } else {
      AllPrepared(caps, st, cards, ws, n - 1);
      assert cards[..n][..n - 1] == cards[..n - 1];
      assert Mintable(st, cards[n - 1], ws) && cards[n - 1] !in cards[..n - 1];
      PrepareNext(caps, st, PrepareAll(cards[..n - 1]), cards, ws, n - 1);
    }
  }

  lemma {:induction false} WithinMore(caps: Caps, st: State, steps: seq<Step>, ws: string, k: nat, more: nat)
    requires Within(caps, st, steps, ws, k) && k <= more
    ensures Within(caps, st, steps, ws, more)
    decreases |steps|
  {
    if steps != [] {
      WithinMore(caps, st, steps[..|steps| - 1], ws, k, more);
    }
  }

  function CommitAll(cards: seq<string>): seq<Step> {
    if cards == [] then [] else CommitAll(cards[..|cards| - 1]) + [Proceed(cards[|cards| - 1], Commit)]
  }

  /** The first n have committed and are counted. */
  ghost predicate Committed(base: State, st: State, cards: seq<string>, n: nat, ws: string)
    requires n <= |cards|
  {
    && st.month == base.month && AllReady(st, cards[n..]) && AllMintable(st, cards[n..], ws)
    && (forall card :: card in base.cards && card !in cards ==> card in st.cards && st.cards[card] == base.cards[card])
    && CountMinted(st.rows, ws, base.month) == CountMinted(base.rows, ws, base.month) + n
  }

  lemma OneMoreCommitted(base: State, st: State, cards: seq<string>, n: nat, ws: string)
    requires n < |cards| && Committed(base, st, cards, n, ws)
    ensures ReadyToCommit(st, cards[n]) && cards[n] in st.cards
    ensures Committed(base, AfterCommit(st, cards[n]), cards, n + 1, ws)
  {
    var card, rest := cards[n], cards[n + 1..];
    assert cards[n..][0] == card && cards[n..][1..] == rest;
    assert ReadyToCommit(st, cards[n..][0]) && Mintable(st, cards[n..][0], ws);
    var next := AfterCommit(st, card);
    forall i | 0 <= i < |rest|
      ensures ReadyToCommit(next, rest[i]) && Mintable(next, rest[i], ws) && rest[i] != card
    {
      assert cards[n..][i + 1] == rest[i];
      assert ReadyToCommit(st, cards[n..][i + 1]) && Mintable(st, cards[n..][i + 1], ws);
    }
    forall c | c in next.holders
      ensures c in rest
    {
      assert c in cards[n..] && c != card;
    }
    forall i, j | 0 <= i < j < |rest|
      ensures rest[i] != rest[j]
    {
      assert cards[n..][i + 1] != cards[n..][j + 1];
    }
    CountMintedSnoc(st.rows, MintRow(ws, card, st.month, card), ws, st.month);
  }

  lemma {:induction false} CommitNext(caps: Caps, base: State, steps: seq<Step>, cards: seq<string>, ws: string, n: nat)
    requires n < |cards| && Within(caps, base, steps, ws, |cards|) &&
             Committed(base, Execute(caps, base, steps), cards, n, ws)
    ensures Within(caps, base, steps + [Proceed(cards[n], Commit)], ws, |cards|)
    ensures Committed(base, Execute(caps, base, steps + [Proceed(cards[n], Commit)]), cards, n + 1, ws)
  {
    var st := Execute(caps, base, steps);
    OneMoreCommitted(base, st, cards, n, ws);
    InFlightAtMost(AfterCommit(st, cards[n]), ws, cards[n + 1..]);
    WithinNext(caps, base, steps, Proceed(cards[n], Commit), ws, |cards|);
  }

  /** Then all of them commit. */
  lemma {:induction false} AllCommitted(caps: Caps, st: State, cards: seq<string>, ws: string, n: nat)
    requires n <= |cards| && AllReady(st, cards) && AllMintable(st, cards, ws)
    ensures Within(caps, st, CommitAll(cards[..n]), ws, |cards|)
    ensures Committed(st, Execute(caps, st, CommitAll(cards[..n])), cards, n, ws)
  {
    if n == 0 {
      InFlightAtMost(st, ws, cards);
      assert cards[0..] == cards;
    } else {
      AllCommitted(caps, st, cards, ws, n - 1);
      assert cards[..n][..n - 1] == cards[..n - 1];
      CommitNext(caps, st, CommitAll(cards[..n - 1]), cards, ws, n - 1);
    }
  }

  /** Mints of different cards share no lock, so all of them pass one quota check. */
  function Overlapping(cards: seq<string>): seq<Step> {
    PrepareAll(cards) + CommitAll(cards)
  }

  /** However many they are, and whatever is left of the cap: all are counted. */
  lemma {:induction false} AllCounted(caps: Caps, st: State, cards: seq<string>, ws: string)
    requires Idle(st) && AllMintable(st, cards, ws) && !AtCap(caps, st.rows, ws, st.month)
    ensures Within(caps, st, Overlapping(cards), ws, |cards|)
    ensures var last := Execute(caps, st, Overlapping(cards)); Idle(last) && Committed(st, last, cards, |cards|, ws)
  {
    assert cards[..|cards|] == cards;
    AllPrepared(caps, st, cards, ws, |cards|);
    var ready := Execute(caps, st, PrepareAll(cards));
    AllCommitted(caps, ready, cards, ws, |cards|);
    WithinConcat(caps, st, PrepareAll(cards), CommitAll(cards), ws, |cards|);
    ExecuteConcat(caps, st, PrepareAll(cards), CommitAll(cards));
    var last := Execute(caps, st, Overlapping(cards));
    assert last.holders == map[] by {
      assert cards[|cards|..] == [];
    }
  }

  /** With one mint left, k overlapping mints of different cards end k - 1 above the cap. */
  lemma {:induction false} OverlappingMintsExceedCap(caps: Caps, st: State, cards: seq<string>, ws: string, cap: nat)
    requires Idle(st) && AllMintable(st, cards, ws) && caps(ws) == Some(cap)
    requires CountMinted(st.rows, ws, st.month) + 1 == cap
    ensures Within(caps, st, Overlapping(cards), ws, |cards|)
    ensures CountMinted(Execute(caps, st, Overlapping(cards)).rows, ws, st.month) == cap + |cards| - 1
  {
    AllCounted(caps, st, cards, ws);
  }

  /** One mint after another. */
  function Serially(cards: seq<string>): seq<Step> {
    if cards == [] then [] else Serially(cards[..|cards| - 1]) + Overlapping([cards[|cards| - 1]])
  }

  lemma {:induction false} SeriallyNext(caps: Caps, st: State, cards: seq<string>, ws: string, n: nat)
    requires n < |cards| && Idle(st) && AllMintable(st, cards[n..], ws) && !AtCap(caps, st.rows, ws, st.month)
    ensures Within(caps, st, Overlapping([cards[n]]), ws, 1)
    ensures var last := Execute(caps, st, Overlapping([cards[n]]));
            && Idle(last) && last.month == st.month && AllMintable(last, cards[n + 1..], ws)
            && CountMinted(last.rows, ws, st.month) == CountMinted(st.rows, ws, st.month) + 1
  {
    assert cards[n..][0] == cards[n] && Mintable(st, cards[n..][0], ws);
    AllCounted(caps, st, [cards[n]], ws);
    var last, rest := Execute(caps, st, Overlapping([cards[n]])), cards[n + 1..];
    forall i | 0 <= i < |rest|
      ensures Mintable(last, rest[i], ws) && rest[i] != cards[n]
    {
      assert rest[i] == cards[n..][i + 1] && Mintable(st, cards[n..][i + 1], ws);
    }
    forall i, j | 0 <= i < j < |rest|
      ensures rest[i] != rest[j]
    {
      assert cards[n..][i + 1] != cards[n..][j + 1];
    }
  }

  /** Mints one after another, as far as the cap allows. */
  lemma {:induction false} SeriallyCounted(caps: Caps, st: State, cards: seq<string>, ws: string, cap: nat, n: nat)
    requires n <= |cards| && Idle(st) && AllMintable(st, cards, ws) && caps(ws) == Some(cap)
    requires CountMinted(st.rows, ws, st.month) + n <= cap
    ensures Within(caps, st, Serially(cards[..n]), ws, 1)
    ensures var last := Execute(caps, st, Serially(cards[..n]));
            && Idle(last) && last.month == st.month && AllMintable(last, cards[n..], ws)
            && CountMinted(last.rows, ws, st.month) == CountMinted(st.rows, ws, st.month) + n
  {
    if n == 0 {
      InFlightAtMost(st, ws, []);
      assert cards[0..] == cards;
    } else {
      SeriallyCounted(caps, st, cards, ws, cap, n - 1);
      assert cards[..n][..n - 1] == cards[..n - 1];
      var before, steps := Execute(caps, st, Serially(cards[..n - 1])), Serially(cards[..n - 1]);
      SeriallyNext(caps, before, cards, ws, n - 1);
      WithinConcat(caps, st, steps, Overlapping([cards[n - 1]]), ws, 1);
      ExecuteConcat(caps, st, steps, Overlapping([cards[n - 1]]));
    }
  }

  /** n card names. */
  function Names(n: nat): seq<string> {
    seq(n, i requires 0 <= i < n => seq(i, j => 'c'))
  }

  /** A workspace with n public cards and no DOI. */
  function Start(ws: string, n: nat): (st: State)
    ensures Fresh(st) && AllMintable(st, Names(n), ws)
  {
    var st := State(map card | card in Names(n) :: Card(ws, None, true), [], map[], map[], 0, [], []);
    assert forall i :: 0 <= i < n ==> Names(n)[i] in Names(n) && |Names(n)[i]| == i;
    st
  }

  /** The bound is reached: mints up to one below the cap, and k more that overlap. */
  lemma BoundReached(caps: Caps, ws: string, cap: nat, k: nat) returns (st: State, steps: seq<Step>)
    requires caps(ws) == Some(cap) && cap > 0 && k > 0
    ensures Fresh(st) && Within(caps, st, steps, ws, k)
    ensures CountMinted(Execute(caps, st, steps).rows, ws, st.month) == cap + k - 1
  {
    var n := cap - 1;
    var cards := Names(n + k);
    st := Start(ws, n + k);
    SeriallyCounted(caps, st, cards, ws, cap, n);
    var serial, before := Serially(cards[..n]), Execute(caps, st, Serially(cards[..n]));
    OverlappingMintsExceedCap(caps, before, cards[n..], ws, cap);
    steps := serial + Overlapping(cards[n..]);
    WithinMore(caps, st, serial, ws, 1, k);
    WithinConcat(caps, st, serial, Overlapping(cards[n..]), ws, k);
    ExecuteConcat(caps, st, serial, Overlapping(cards[n..]));
  }

  /** Over every run with at most k requests in flight at once the workspace keeps its cap. */
  ghost predicate KeepsCap(caps: Caps, ws: string, cap: nat, k: nat) {
    forall st, steps, month :: Fresh(st) && Within(caps, st, steps, ws, k) ==>
      CountMinted(Execute(caps, st, steps).rows, ws, month) <= cap
  }

  /** The cap is safe exactly when the requests of a workspace never overlap, or it allows no mints at all. */
  lemma CapIsSafeIff(caps: Caps, ws: string, cap: nat, k: nat)
    requires caps(ws) == Some(cap)
    ensures KeepsCap(caps, ws, cap, k) <==> k <= 1 || cap == 0
  {
    if k <= 1 || cap == 0 {
      forall st, steps, month | Fresh(st) && Within(caps, st, steps, ws, k)
        ensures CountMinted(Execute(caps, st, steps).rows, ws, month) <= cap
      {
        var more := if k == 0 then 1 else k;
        WithinMore(caps, st, steps, ws, k, more);
        MintedAtMost(caps, st, steps, ws, cap, more, month);
      }
    } else {
      var st, steps := BoundReached(caps, ws, cap, k);
      assert CountMinted(Execute(caps, st, steps).rows, ws, st.month) > cap;
    }
  }
}
