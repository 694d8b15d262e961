/**
 Result cards and their DOIs: publish, unpublish and mint requests as transactions that interleave,
 with the row lock of a card held until its transaction ends.
 */
module Doi {
  import opened Wrappers

  datatype Card = Card(workspace: string, doi: Option<string>, public: bool)

  /** An audit row of a successful mint. */
  datatype MintRow = MintRow(workspace: string, card: string, month: int, doi: string)

  datatype Kind = Publish | Mint

  datatype Request = Request(card: string, kind: Kind)

  /** How far the request that holds a card's row lock has come. */
  datatype Phase = Locked | Cleared | Minted(doi: string)

  datatype Holder = Holder(kind: Kind, phase: Phase)

  /**
   The committed rows, the requests that wait for a lock, the lock holders by card, the current
   month, the cards the provider has registered DOIs for, and those of them whose transaction was
   rolled back.
   */
  datatype State = State(
    cards: map<string, Card>,
    rows: seq<MintRow>,
    waiting: map<nat, Request>,
    holders: map<string, Holder>,
    month: int,
    registered: seq<string>,
    lost: seq<string>)

  /** The monthly cap of a workspace's plan; None is unlimited. */
  type Caps = string -> Option<nat>

  /** doi_minted_this_month */
  function CountMinted(rows: seq<MintRow>, workspace: string, month: int): nat {
    if rows == [] then 0
    else
      CountMinted(rows[..|rows| - 1], workspace, month) +
      (if rows[|rows| - 1].workspace == workspace && rows[|rows| - 1].month == month then 1 else 0)
  }

  /** doi_usage's at_cap */
  predicate AtCap(caps: Caps, rows: seq<MintRow>, workspace: string, month: int) {
    caps(workspace).Some? && CountMinted(rows, workspace, month) >= caps(workspace).value
  }

  /** What a request does once it holds the lock; the provider registers a DOI, or fails or gives local ids only. */
  datatype Move = Quota | Provider(outcome: Option<string>) | Commit | Abort

  datatype Step =
    | Begin(id: nat, card: string, kind: Kind)
    | Acquire(id: nat)
    | Proceed(card: string, move: Move)
    | Unpublish(card: string)
    | NextMonth

  /** A publish makes the card public, whatever became of its DOI. */
  function Shown(cards: map<string, Card>, card: string, kind: Kind): map<string, Card> {
    if kind == Publish && card in cards then cards[card := cards[card].(public := true)] else cards
  }

  /** The transaction that holds the card ends without a DOI. */
  function End(st: State, card: string): State
    requires card in st.holders
  {
    st.(cards := Shown(st.cards, card, st.holders[card].kind), holders := st.holders - {card})
  }

  /** A card that has a DOI already needs no lock; a mint needs a public card. */
  function AfterBegin(st: State, id: nat, card: string, kind: Kind): State {
    if id in st.waiting || card !in st.cards || (kind == Mint && !st.cards[card].public) then st
    else if st.cards[card].doi.Some? then st.(cards := Shown(st.cards, card, kind))
    else st.(waiting := st.waiting[id := Request(card, kind)])
  }

  /** Taking the lock, once it is free, and looking at the DOI again. */
  function AfterAcquire(st: State, id: nat): State {
    if id !in st.waiting || st.waiting[id].card in st.holders || st.waiting[id].card !in st.cards then st
    else
      var r := st.waiting[id];
      var rest := st.(waiting := st.waiting - {id});
      if st.cards[r.card].doi.Some? then rest.(cards := Shown(st.cards, r.card, r.kind))
      else rest.(holders := st.holders[r.card := Holder(r.kind, Locked)])
  }

  function AfterQuota(caps: Caps, st: State, card: string): State
    requires card in st.holders && card in st.cards
  {
    if st.holders[card].phase != Locked then st
    else if AtCap(caps, st.rows, st.cards[card].workspace, st.month) then End(st, card)
    else st.(holders := st.holders[card := st.holders[card].(phase := Cleared)])
  }

  function AfterProvider(st: State, card: string, outcome: Option<string>): State
    requires card in st.holders
  {
    if st.holders[card].phase != Cleared then st
    else if outcome.None? then End(st, card)
    else st.(holders := st.holders[card := st.holders[card].(phase := Minted(outcome.value))],
             registered := st.registered + [card])
  }

  function AfterCommit(st: State, card: string): State
    requires card in st.holders && card in st.cards
  {
    if !st.holders[card].phase.Minted? then st
    else
      var doi := st.holders[card].phase.doi;
      End(st, card).(
        cards := Shown(st.cards[card := st.cards[card].(doi := Some(doi))], card, st.holders[card].kind),
        rows := st.rows + [MintRow(st.cards[card].workspace, card, st.month, doi)])
  }

  /** The transaction is rolled back; a DOI the provider has registered by then is lost. */
  function AfterAbort(st: State, card: string): State
    requires card in st.holders
  {
    st.(holders := st.holders - {card},
        lost := if st.holders[card].phase.Minted? then st.lost + [card] else st.lost)
  }

  function AfterMove(caps: Caps, st: State, card: string, move: Move): State
    requires card in st.holders && card in st.cards
  {
    match move
    case Quota => AfterQuota(caps, st, card)
    case Provider(outcome) => AfterProvider(st, card, outcome)
    case Commit => AfterCommit(st, card)
    case Abort => AfterAbort(st, card)
  }

  function AfterUnpublish(st: State, card: string): State {
    if card in st.cards then st.(cards := st.cards[card := st.cards[card].(public := false)]) else st
  }

  /** One step; a step that is not possible changes nothing. */
  function Next(caps: Caps, st: State, s: Step): State {
    match s
    case Begin(id, card, kind) => AfterBegin(st, id, card, kind)
    case Acquire(id) => AfterAcquire(st, id)
    case Proceed(card, move) => if card in st.holders && card in st.cards then AfterMove(caps, st, card, move) else st
    case Unpublish(card) => AfterUnpublish(st, card)
    case NextMonth => st.(month := st.month + 1)
  }

  function Execute(caps: Caps, st: State, steps: seq<Step>): State {
    if steps == [] then st else Next(caps, Execute(caps, st, steps[..|steps| - 1]), steps[|steps| - 1])
  }

  // --- one request at a time ---------------------------------------------------------------------

  datatype Status = NotFound | NotPublic | Exists(doi: string) | QuotaExceeded | MintFailed | DoiMinted(doi: string)

  /** The card and audit tables, with requests served one after another. */
  class Cards {
    var cards: map<string, Card>
    var rows: seq<MintRow>
    var registered: seq<string>

    constructor ()
      ensures cards == map[] && rows == [] && registered == []
    {
      cards, rows, registered := map[], [], [];
    }

    function Contents(month: int): State
      reads this
    {
      State(cards, rows, map[], map[], month, registered, [])
    }

    method CountThisMonth(workspace: string, month: int) returns (count: nat)
      ensures count == CountMinted(rows, workspace, month)
    {
      count := 0;
      for i := 0 to |rows|
        invariant count == CountMinted(rows[..i], workspace, month)
      {
        assert rows[..i + 1][..i] == rows[..i];
        if rows[i].workspace == workspace && rows[i].month == month {
          count := count + 1;
        }
      }
      assert rows[..|rows|] == rows;
    }

    /** publish_card and the route around it; the provider is asked only when it registers DOIs. */
    method PublishCard(caps: Caps, card: string, month: int, outcome: Option<string>) returns (status: Status)
      modifies this
      ensures Contents(month) == Execute(caps, old(Contents(month)), WholeRequest(card, Publish, outcome))
      ensures status == NotFound <==> card !in old(cards)
      ensures card in cards ==> cards[card].public && (status.DoiMinted? ==> cards[card].doi == Some(status.doi))
    {
      if card !in cards {
        WholeRequestSteps(caps, Contents(month), card, Publish, outcome);
        return NotFound;
      }
      WholeRequestSteps(caps, Contents(month), card, Publish, outcome);
      var doi, minted := cards[card].doi, None;
      if doi.Some? {
        status := Exists(doi.value);
      } else {
        status, minted := TryMint(caps, card, month, outcome);
        doi := minted;
      }
      cards := cards[card := cards[card].(public := true, doi := doi)];
      if minted.Some? {
        rows := rows + [MintRow(cards[card].workspace, card, month, minted.value)];
      }
    }

    /** The quota check and the provider call that both ways to a DOI share. */
    method TryMint(caps: Caps, card: string, month: int, outcome: Option<string>)
        returns (status: Status, minted: Option<string>)
      requires card in cards
      modifies this`registered
      ensures registered == if minted.Some? then old(registered) + [card] else old(registered)
      ensures minted == if AtCap(caps, rows, cards[card].workspace, month) then None else outcome
      ensures status == if AtCap(caps, rows, cards[card].workspace, month) then QuotaExceeded
                        else if outcome.None? then MintFailed else DoiMinted(outcome.value)
    {
      var used := CountThisMonth(cards[card].workspace, month);
      var cap := caps(cards[card].workspace);
      if cap.Some? && used >= cap.value {
        return QuotaExceeded, None;
      }
      if outcome.None? {
        return MintFailed, None;
      }
      registered := registered + [card];
      return DoiMinted(outcome.value), outcome;
    }

    /** The route around mint_card_doi. */
    method MintDoi(caps: Caps, card: string, month: int, outcome: Option<string>) returns (status: Status)
      modifies this
      ensures Contents(month) == Execute(caps, old(Contents(month)), WholeRequest(card, Mint, outcome))
      ensures status.DoiMinted? ==> card in cards && cards[card].doi == Some(status.doi)
    {
      WholeRequestSteps(caps, Contents(month), card, Mint, outcome);
      if card !in cards || !cards[card].public {
        return NotPublic;
      }
      if cards[card].doi.Some? {
        return Exists(cards[card].doi.value);
      }
      var minted;
      status, minted := TryMint(caps, card, month, outcome);
      if minted.Some? {
        cards := cards[card := cards[card].(doi := minted)];
        rows := rows + [MintRow(cards[card].workspace, card, month, minted.value)];
      }
    }

    /** unpublish_card: the DOI stays. */
    method UnpublishCard(card: string) returns (found: bool)
      modifies this`cards
      ensures found == (card in old(cards))
      ensures cards == AfterUnpublish(old(Contents(0)), card).cards
    {
      found := card in cards;
      if found {
        cards := cards[card := cards[card].(public := false)];
      }
    }
  }

  /** The steps of a request that is served from beginning to end. */
  function WholeRequest(card: string, kind: Kind, outcome: Option<string>): seq<Step> {
    [Begin(0, card, kind), Acquire(0), Proceed(card, Quota), Proceed(card, Provider(outcome)), Proceed(card, Commit)]
  }

  lemma {:induction false} ExecuteNext(caps: Caps, st: State, steps: seq<Step>, k: nat)
    requires k < |steps|
    ensures Execute(caps, st, steps[..k + 1]) == Next(caps, Execute(caps, st, steps[..k]), steps[k])
  {
    assert steps[..k + 1][..k] == steps[..k];
  }

  lemma WaitingIsServed(st: State, card: string, kind: Kind)
    requires st.waiting == map[] && st.holders == map[] && card in st.cards && st.cards[card].doi.None?
    requires kind == Mint ==> st.cards[card].public
    ensures AfterAcquire(AfterBegin(st, 0, card, kind), 0) == st.(holders := map[card := Holder(kind, Locked)])
  {
    assert map[0 := Request(card, kind)] - {0} == map[];
  }

  lemma {:induction false} FiveSteps(caps: Caps, st: State, w: seq<Step>)
    requires |w| == 5
    ensures Execute(caps, st, w) ==
            Next(caps, Next(caps, Next(caps, Next(caps, Next(caps, st, w[0]), w[1]), w[2]), w[3]), w[4])
  {
    ExecuteNext(caps, st, w, 0);
    ExecuteNext(caps, st, w, 1);
    ExecuteNext(caps, st, w, 2);
    ExecuteNext(caps, st, w, 3);
    ExecuteNext(caps, st, w, 4);
    assert w[..5] == w;
  }

  /** Quota check, provider and commit of the only request in flight. */
  lemma ServedWithLock(caps: Caps, st: State, card: string, kind: Kind, outcome: Option<string>)
    requires st.holders == map[card := Holder(kind, Locked)] && card in st.cards
    ensures var s3 := AfterQuota(caps, st, card);
            var s4 := Next(caps, s3, Proceed(card, Provider(outcome)));
            var shown := Shown(st.cards, card, kind);
            Next(caps, s4, Proceed(card, Commit)) ==
            if outcome.None? || AtCap(caps, st.rows, st.cards[card].workspace, st.month)
            then st.(cards := shown, holders := map[])
            else st.(cards := shown[card := shown[card].(doi := outcome)], holders := map[],
                     rows := st.rows + [MintRow(st.cards[card].workspace, card, st.month, outcome.value)],
                     registered := st.registered + [card])
  {
    assert st.holders - {card} == map[];
    if !AtCap(caps, st.rows, st.cards[card].workspace, st.month) {
      var cleared := map[card := Holder(kind, Cleared)];
      assert AfterQuota(caps, st, card) == st.(holders := cleared);
      assert cleared - {card} == map[];
      if outcome.Some? {
        var minted := map[card := Holder(kind, Minted(outcome.value))];
        assert cleared[card := Holder(kind, Minted(outcome.value))] == minted && minted - {card} == map[];
      }
    }
  }

  /** What a whole request does when nothing else is in flight. */
  lemma {:induction false} WholeRequestSteps(caps: Caps, st: State, card: string, kind: Kind, outcome: Option<string>)
    requires st.waiting == map[] && st.holders == map[]
    ensures var last := Execute(caps, st, WholeRequest(card, kind, outcome));
            last ==
            if card !in st.cards || (kind == Mint && !st.cards[card].public) then st
            else
              var shown := Shown(st.cards, card, kind);
              if st.cards[card].doi.Some? || outcome.None? || AtCap(caps, st.rows, st.cards[card].workspace, st.month)
              then st.(cards := shown)
              else st.(cards := shown[card := shown[card].(doi := outcome)],
                       rows := st.rows + [MintRow(st.cards[card].workspace, card, st.month, outcome.value)],
                       registered := st.registered + [card])
  {
    FiveSteps(caps, st, WholeRequest(card, kind, outcome));
    if card in st.cards && !(kind == Mint && !st.cards[card].public) && st.cards[card].doi.None? {
      WaitingIsServed(st, card, kind);
      ServedWithLock(caps, st.(holders := map[card := Holder(kind, Locked)]), card, kind, outcome);
    }
  }
}
