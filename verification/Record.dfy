/** The stored record the compliance rules read, and the candidate rows of each rule source. */
module Record {
  import opened Wrappers
  import opened Predicates

  /** A stored row: its id and its attributes, including related rows. */
  datatype Row = Row(id: string, attrs: Value)

  datatype RunRow = RunRow(row: Row, workspace: string, circuit: Option<Row>, calibration: Option<Row>,
    results: seq<Row>)

  datatype EventRow = EventRow(row: Row, originalId: string)

  datatype CardRow = CardRow(row: Row, workspace: string, runId: string)

  datatype Data = Data(runs: seq<RunRow>, events: seq<EventRow>, cards: seq<CardRow>)

  /** An object map and the row it is about. */
  datatype Candidate = Candidate(m: ObjMap, target: Row)

  function AttrsOf(row: Option<Row>): Value {
    if row.Some? then row.value.attrs else VNull
  }

  function RunsOf(runs: seq<RunRow>, ws: string): seq<RunRow> {
    if runs == [] then []
    else
      var last := runs[|runs| - 1];
      RunsOf(runs[..|runs| - 1], ws) + (if last.workspace == ws then [last] else [])
  }

  /** Events whose original run belongs to the workspace. */
  function EventsOf(events: seq<EventRow>, runs: seq<RunRow>, ws: string): seq<EventRow> {
    if events == [] then []
    else
      var last := events[|events| - 1];
      EventsOf(events[..|events| - 1], runs, ws) +
      (if exists i :: 0 <= i < |runs| && runs[i].row.id == last.originalId && runs[i].workspace == ws
       then [last] else [])
  }

  function RunCandidate(r: RunRow): Candidate {
    Candidate(map["run" := r.row.attrs, "circuit" := AttrsOf(r.circuit), "calibration" := AttrsOf(r.calibration),
                  "target" := r.row.attrs], r.row)
  }

  function RunCandidates(runs: seq<RunRow>): seq<Candidate> {
    seq(|runs|, i requires 0 <= i < |runs| => RunCandidate(runs[i]))
  }

  function ResultCandidates(runs: seq<RunRow>): seq<Candidate> {
    if runs == [] then []
    else
      var r := runs[|runs| - 1];
      ResultCandidates(runs[..|runs| - 1]) +
      seq(|r.results|, i requires 0 <= i < |r.results| =>
        Candidate(map["result" := r.results[i].attrs, "run" := r.row.attrs, "target" := r.results[i].attrs],
          r.results[i]))
  }

  predicate SeenTarget(candidates: seq<Candidate>, id: string) {
    exists i :: 0 <= i < |candidates| && candidates[i].target.id == id
  }

  /** The distinct circuits (or calibrations) of the runs, each with the first run that uses it. */
  function SharedCandidates(runs: seq<RunRow>, source: string): seq<Candidate> {
    if runs == [] then []
    else
      var r := runs[|runs| - 1];
      var shared := if source == "circuit" then r.circuit else r.calibration;
      var seen := SharedCandidates(runs[..|runs| - 1], source);
      if shared.Some? && !SeenTarget(seen, shared.value.id) then
        seen + [Candidate(map[source := shared.value.attrs, "run" := r.row.attrs, "target" := shared.value.attrs],
          shared.value)]
      else seen
  }

  function RunAttrs(runs: seq<RunRow>, id: string): Value {
    if runs == [] then VNull
    else if runs[0].row.id == id then runs[0].row.attrs
    else RunAttrs(runs[1..], id)
  }

  function CardCandidates(cards: seq<CardRow>, runs: seq<RunRow>, ws: string): seq<Candidate> {
    if cards == [] then []
    else
      var c := cards[|cards| - 1];
      CardCandidates(cards[..|cards| - 1], runs, ws) +
      (if c.workspace == ws then
         [Candidate(map["card" := c.row.attrs, "run" := RunAttrs(runs, c.runId), "target" := c.row.attrs], c.row)]
       else [])
  }

  function EventCandidates(events: seq<EventRow>): seq<Candidate> {
    seq(|events|, i requires 0 <= i < |events| =>
      Candidate(map["reproduction" := events[i].row.attrs, "target" := events[i].row.attrs], events[i].row))
  }

  function EventValues(events: seq<EventRow>): seq<Value> {
    seq(|events|, i requires 0 <= i < |events| => events[i].row.attrs)
  }

  /** The workspace with its reproduction events attached; they hide any attribute of that name. */
  function WorkspaceCandidate(ws: Row, events: seq<EventRow>): Candidate {
    var view := VRow([Attr("reproduction_events", VList(EventValues(events)))] +
                     (match ws.attrs case VRow(attrs) => attrs case _ => []));
    Candidate(map["workspace" := view, "target" := ws.attrs], ws)
  }

  /** _fetch_candidates; None for an unknown source, which raises. */
  function Candidates(data: Data, ws: Row, source: string): Option<seq<Candidate>> {
    if source == "workspace" then Some([WorkspaceCandidate(ws, EventsOf(data.events, data.runs, ws.id))])
    else if source == "run" then Some(RunCandidates(RunsOf(data.runs, ws.id)))
    else if source == "result" then Some(ResultCandidates(RunsOf(data.runs, ws.id)))
    else if source == "circuit" || source == "calibration" then Some(SharedCandidates(RunsOf(data.runs, ws.id), source))
    else if source == "card" then Some(CardCandidates(data.cards, data.runs, ws.id))
    else if source == "reproduction" then Some(EventCandidates(EventsOf(data.events, data.runs, ws.id)))
    else None
  }
}
