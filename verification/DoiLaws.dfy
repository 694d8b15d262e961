/**
 What the row lock and the quota check guarantee: one DOI per card for ever, and a monthly cap for serial requests.
 */
module DoiLaws {
  import opened Doi
  import opened Wrappers

  // --- at most one mint per card -------------------------------------------------------------------

  function Count(cards: seq<string>, card: string): nat {
    if cards == [] then 0
    else Count(cards[..|cards| - 1], card) + (if cards[|cards| - 1] == card then 1 else 0)
  }

  function CountRows(rows: seq<MintRow>, card: string): nat {
    if rows == [] then 0
    else CountRows(rows[..|rows| - 1], card) + (if rows[|rows| - 1].card == card then 1 else 0)
  }

  function HasDoi(st: State, card: string): nat {
    if card in st.cards && st.cards[card].doi.Some? then 1 else 0
  }

  /** One while a DOI is registered but not committed. */
  function InHand(st: State, card: string): nat {
    if card in st.holders && st.holders[card].phase.Minted? then 1 else 0
  }

  /** The committed mints are those of the cards with a DOI, and every registration is accounted for. */
  predicate Books(st: State, card: string) {
    && CountRows(st.rows, card) == HasDoi(st, card)
    && Count(st.registered, card) == HasDoi(st, card) + InHand(st, card) + Count(st.lost, card)
  }

  /** A card whose lock is held exists and has no DOI. */
  ghost predicate LocksGood(st: State) {
    forall card :: card in st.holders ==> card in st.cards && st.cards[card].doi.None?
  }

  /** The audit rows name the DOIs of their cards. */
  ghost predicate RowsGood(st: State) {
    forall i :: 0 <= i < |st.rows| ==>
      st.rows[i].card in st.cards && st.cards[st.rows[i].card].doi == Some(st.rows[i].doi)
  }

  ghost predicate Good(st: State) {
    LocksGood(st) && RowsGood(st) && forall card :: Books(st, card)
  }

  lemma {:induction false} CountRowsSnoc(rows: seq<MintRow>, row: MintRow, card: string)
    ensures CountRows(rows + [row], card) == CountRows(rows, card) + (if row.card == card then 1 else 0)
  {
    assert (rows + [row])[..|rows|] == rows;
  }

  lemma {:induction false} CountSnoc(cards: seq<string>, x: string, card: string)
    ensures Count(cards + [x], card) == Count(cards, card) + (if x == card then 1 else 0)
  {
    assert (cards + [x])[..|cards|] == cards;
  }

  lemma ProviderKeepsBooks(st: State, holder: string, outcome: Option<string>, card: string)
    requires LocksGood(st) && Books(st, card) && holder in st.holders
    ensures Books(AfterProvider(st, holder, outcome), card)
  {
    CountSnoc(st.registered, holder, card);
  }

  lemma CommitKeepsBooks(st: State, holder: string, card: string)
    requires LocksGood(st) && Books(st, card) && holder in st.holders
    ensures Books(AfterCommit(st, holder), card)
  {
    if st.holders[holder].phase.Minted? {
      CountRowsSnoc(st.rows, MintRow(st.cards[holder].workspace, holder, st.month, st.holders[holder].phase.doi), card);
    }
  }

  lemma AbortKeepsBooks(st: State, holder: string, card: string)
    requires LocksGood(st) && Books(st, card) && holder in st.holders
    ensures Books(AfterAbort(st, holder), card)
  {
    CountSnoc(st.lost, holder, card);
  }

  /** Steps that write no book: the same cards have DOIs, and the same are in hand. */
  predicate Quiet(st: State, next: State, card: string) {
    && next.rows == st.rows && next.registered == st.registered && next.lost == st.lost
    && HasDoi(next, card) == HasDoi(st, card) && InHand(next, card) == InHand(st, card)
  }

  lemma BeginIsQuiet(st: State, id: nat, c: string, kind: Kind, card: string)
    ensures Quiet(st, AfterBegin(st, id, c, kind), card)
  {}

  lemma AcquireIsQuiet(st: State, id: nat, card: string)
    ensures Quiet(st, AfterAcquire(st, id), card)
  {}

  lemma QuotaIsQuiet(caps: Caps, st: State, holder: string, card: string)
    requires holder in st.holders && holder in st.cards
    ensures Quiet(st, AfterQuota(caps, st, holder), card)
  {}

  lemma StepKeepsBooks(caps: Caps, st: State, s: Step, card: string)
    requires LocksGood(st) && Books(st, card)
    ensures Books(Next(caps, st, s), card)
  {
    match s
    case Begin(id, c, kind) => BeginIsQuiet(st, id, c, kind, card);
    case Acquire(id) => AcquireIsQuiet(st, id, card);
    case Proceed(c, move) =>
      if c in st.holders {
        MoveKeepsBooks(caps, st, c, move, card);
      }
    case _ =>
  }

  lemma MoveKeepsBooks(caps: Caps, st: State, holder: string, move: Move, card: string)
    requires LocksGood(st) && Books(st, card) && holder in st.holders
    ensures Books(AfterMove(caps, st, holder, move), card)
  {
    match move
    case Quota => QuotaIsQuiet(caps, st, holder, card);
    case Provider(outcome) => ProviderKeepsBooks(st, holder, outcome, card);
    case Commit => CommitKeepsBooks(st, holder, card);
    case Abort => AbortKeepsBooks(st, holder, card);
  }

  /** DOIs are permanent: no step takes one away or changes it, and no card disappears. */
  predicate Keeps(st: State, next: State, card: string) {
    card in st.cards ==> card in next.cards && (st.cards[card].doi.Some? ==> next.cards[card].doi == st.cards[card].doi)
  }

  lemma StepKeepsDois(caps: Caps, st: State, s: Step, card: string)
    requires LocksGood(st)
    ensures Keeps(st, Next(caps, st, s), card)
  {}

  lemma StepKeepsLocks(caps: Caps, st: State, s: Step)
    requires LocksGood(st)
    ensures LocksGood(Next(caps, st, s))
  {}

  lemma StepKeepsRows(caps: Caps, st: State, s: Step)
    requires LocksGood(st) && RowsGood(st)
    ensures RowsGood(Next(caps, st, s))
  {
    forall card
      ensures Keeps(st, Next(caps, st, s), card)
    {
      StepKeepsDois(caps, st, s, card);
    }
    forall i | 0 <= i < |st.rows|
      ensures st.rows[i].card in Next(caps, st, s).cards &&
              Next(caps, st, s).cards[st.rows[i].card].doi == Some(st.rows[i].doi)
    {
      assert Keeps(st, Next(caps, st, s), st.rows[i].card);
    }
  }

  /**
   Over every interleaving of publish, unpublish and mint requests: a card is minted at most once, a
   DOI never changes again, and the provider has registered exactly the DOIs of the cards, those still
   to be committed and those that a rollback lost.
   */
  lemma {:induction false} OneDoiPerCard(caps: Caps, st: State, steps: seq<Step>, card: string)
    requires Good(st)
    ensures var last := Execute(caps, st, steps);
            && Good(last) && Keeps(st, last, card)
            && CountRows(last.rows, card) <= 1
            && Count(last.registered, card) <= 1 + Count(last.lost, card)
    decreases |steps|
  {
    assert Books(st, card);
    if steps != [] {
      var n := |steps| - 1;
      OneDoiPerCard(caps, st, steps[..n], card);
      var before := Execute(caps, st, steps[..n]);
      StepKeepsLocks(caps, before, steps[n]);
      StepKeepsRows(caps, before, steps[n]);
      StepKeepsDois(caps, before, steps[n], card);
      forall c
        ensures Books(Next(caps, before, steps[n]), c)
      {
        assert Books(before, c);
        StepKeepsBooks(caps, before, steps[n], c);
      }
      assert Books(Next(caps, before, steps[n]), card);
    }
  }

  lemma {:induction false} LostStays(caps: Caps, st: State, steps: seq<Step>)
    requires forall i :: 0 <= i < |steps| ==> !(steps[i].Proceed? && steps[i].move.Abort?)
    ensures Execute(caps, st, steps).lost == st.lost
    decreases |steps|
  {
    if steps != [] {
      LostStays(caps, st, steps[..|steps| - 1]);
    }
  }

  /** While no transaction is rolled back the provider registers at most one DOI per card. */
  lemma {:induction false} RegisteredOnce(caps: Caps, st: State, steps: seq<Step>, card: string)
    requires Good(st) && st.lost == []
    requires forall i :: 0 <= i < |steps| ==> !(steps[i].Proceed? && steps[i].move.Abort?)
    ensures Count(Execute(caps, st, steps).registered, card) <= 1
  {
    OneDoiPerCard(caps, st, steps, card);
    LostStays(caps, st, steps);
  }

  // --- the monthly cap -----------------------------------------------------------------------------

  /** At most one request is in flight. */
  ghost predicate OneInFlight(st: State) {
    && (forall i, j :: i in st.waiting && j in st.waiting ==> i == j)
    && (forall c, d :: c in st.holders && d in st.holders ==> c == d)
    && (st.waiting == map[] || st.holders == map[])
  }

  predicate Idle(st: State) {
    st.waiting == map[] && st.holders == map[]
  }

  /** Requests are served one after another: none begins while another is in flight. */
  predicate Serial(caps: Caps, st: State, steps: seq<Step>)
    decreases |steps|
  {
    steps == [] ||
    (Serial(caps, st, steps[..|steps| - 1]) &&
     (steps[|steps| - 1].Begin? ==> Idle(Execute(caps, st, steps[..|steps| - 1]))))
  }

  /** The request that holds the card has passed the quota check. */
  predicate Spending(st: State, card: string) {
    card in st.holders && card in st.cards && st.holders[card].phase != Locked
  }

  predicate Fits(caps: Caps, workspace: string, count: nat) {
    caps(workspace).Some? ==> count <= caps(workspace).value
  }

  ghost predicate NoLaterRows(st: State) {
    forall i :: 0 <= i < |st.rows| ==> st.rows[i].month <= st.month
  }

  ghost predicate CapKept(caps: Caps, st: State) {
    && (forall ws, month :: Fits(caps, ws, CountMinted(st.rows, ws, month)))
    && (forall card :: Spending(st, card) ==>
          Fits(caps, st.cards[card].workspace, CountMinted(st.rows, st.cards[card].workspace, st.month) + 1))
  }

  lemma {:induction false} CountMintedSnoc(rows: seq<MintRow>, row: MintRow, ws: string, month: int)
    ensures CountMinted(rows + [row], ws, month) ==
            CountMinted(rows, ws, month) + (if row.workspace == ws && row.month == month then 1 else 0)
  {
    assert (rows + [row])[..|rows|] == rows;
  }

  lemma {:induction false} NothingMintedLater(rows: seq<MintRow>, ws: string, month: int)
    requires forall i :: 0 <= i < |rows| ==> rows[i].month < month
    ensures CountMinted(rows, ws, month) == 0
    decreases |rows|
  {
    if rows != [] {
      NothingMintedLater(rows[..|rows| - 1], ws, month);
    }
  }

  lemma StepKeepsOneInFlight(caps: Caps, st: State, s: Step)
    requires OneInFlight(st) && (s.Begin? ==> Idle(st))
    ensures OneInFlight(Next(caps, st, s))
  {
    if s.Acquire? && s.id in st.waiting {
      assert st.waiting - {s.id} == map[];
    }
  }

  lemma StepKeepsMonths(caps: Caps, st: State, s: Step)
    requires NoLaterRows(st)
    ensures NoLaterRows(Next(caps, st, s))
  {}

  lemma CommitKeepsCap(caps: Caps, st: State, card: string)
    requires LocksGood(st) && OneInFlight(st) && CapKept(caps, st) && card in st.holders
    ensures CapKept(caps, AfterCommit(st, card))
  {
    if st.holders[card].phase.Minted? {
      var next := AfterCommit(st, card);
      var ws := st.cards[card].workspace;
      assert Spending(st, card);
      forall w, month
        ensures Fits(caps, w, CountMinted(next.rows, w, month))
      {
        assert Fits(caps, w, CountMinted(st.rows, w, month));
        CountMintedSnoc(st.rows, MintRow(ws, card, st.month, st.holders[card].phase.doi), w, month);
      }
      assert next.holders == map[];
    }
  }

  lemma MonthKeepsCap(caps: Caps, st: State)
    requires NoLaterRows(st) && CapKept(caps, st)
    ensures CapKept(caps, st.(month := st.month + 1))
  {
    var next := st.(month := st.month + 1);
    forall card | Spending(next, card)
      ensures Fits(caps, next.cards[card].workspace, CountMinted(next.rows, next.cards[card].workspace, next.month) + 1)
    {
      assert Spending(st, card);
      NothingMintedLater(st.rows, st.cards[card].workspace, st.month + 1);
    }
  }

  lemma QuotaKeepsCap(caps: Caps, st: State, card: string)
    requires LocksGood(st) && CapKept(caps, st) && card in st.holders
    ensures CapKept(caps, AfterQuota(caps, st, card))
  {
    var next := AfterQuota(caps, st, card);
    forall c | Spending(next, c)
      ensures Fits(caps, next.cards[c].workspace, CountMinted(next.rows, next.cards[c].workspace, next.month) + 1)
    {
      if c != card {
        assert Spending(st, c);
      } else if Spending(st, c) {
      } else {
        assert !AtCap(caps, st.rows, st.cards[card].workspace, st.month);
      }
    }
  }

  /** A step that commits nothing and lets no request pass the quota check. */
  lemma OtherKeepsCap(caps: Caps, st: State, next: State)
    requires CapKept(caps, st) && next.rows == st.rows && next.month == st.month
    requires forall card :: Spending(next, card) ==>
             Spending(st, card) && next.cards[card].workspace == st.cards[card].workspace
    ensures CapKept(caps, next)
  {
    forall card | Spending(next, card)
      ensures Fits(caps, next.cards[card].workspace, CountMinted(next.rows, next.cards[card].workspace, next.month) + 1)
    {
      assert Spending(st, card);
    }
  }

  lemma StepKeepsCap(caps: Caps, st: State, s: Step)
    requires LocksGood(st) && OneInFlight(st) && NoLaterRows(st) && CapKept(caps, st)
    ensures CapKept(caps, Next(caps, st, s))
  {
    if s.NextMonth? {
      MonthKeepsCap(caps, st);
    } else if s.Proceed? && s.card in st.holders && s.move.Commit? {
      CommitKeepsCap(caps, st, s.card);
    } else if s.Proceed? && s.card in st.holders && s.move.Quota? {
      QuotaKeepsCap(caps, st, s.card);
    } else {
      OtherKeepsCap(caps, st, Next(caps, st, s));
    }
  }

  ghost predicate CapGood(caps: Caps, st: State) {
    LocksGood(st) && OneInFlight(st) && NoLaterRows(st) && CapKept(caps, st)
  }

  /**
   With requests served one after another no workspace ever mints more than its cap in a month, however
   its cards are published, unpublished and republished, and even when a month ends in mid-request.
   */
  lemma {:induction false} CapNeverExceeded(caps: Caps, st: State, steps: seq<Step>)
    requires CapGood(caps, st) && Serial(caps, st, steps)
    ensures CapGood(caps, Execute(caps, st, steps))
    ensures forall ws, month :: Fits(caps, ws, CountMinted(Execute(caps, st, steps).rows, ws, month))
    decreases |steps|
  {
    if steps != [] {
      var n := |steps| - 1;
      CapNeverExceeded(caps, st, steps[..n]);
      var before := Execute(caps, st, steps[..n]);
      StepKeepsLocks(caps, before, steps[n]);
      StepKeepsOneInFlight(caps, before, steps[n]);
      StepKeepsMonths(caps, before, steps[n]);
      StepKeepsCap(caps, before, steps[n]);
    }
  }

  /** Before anything is minted the books balance and the caps are kept. */
  lemma StartIsGood(caps: Caps, cards: map<string, Card>, month: int)
    requires forall card :: card in cards ==> cards[card].doi.None?
    ensures Good(State(cards, [], map[], map[], month, [], []))
    ensures CapGood(caps, State(cards, [], map[], map[], month, [], []))
  {}
}
