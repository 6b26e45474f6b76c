/** Revision-checked persistence: one shared cell, and any number of clients that
    load it, apply one engine call and try to save. */
module CampaignStore {
  import opened Wrappers
  import opened CampaignModels
  import opened CampaignEngine
  import opened CampaignRuns

  datatype StoreError =
    | AlreadyExists | NotFound | Corrupt | ConfigImmutable | RevisionConflict | EvidenceUnverified

  /** Integrity verification of one registered artifact. */
  type Verifier = Artifact -> bool

  function CreateOutcome(state: Option<Record>, config: Config, platform: Artifact): Result<Record, StoreError> {
    if state.Some? then Err(AlreadyExists) else Ok(New(config, Some(platform)))
  }

  /** The record a save would put in the cell, or why it is refused. */
  function SaveOutcome(verify: Verifier, state: Option<Record>, r: Record): Result<Record, StoreError> {
    if state.None? then Err(NotFound)
    else if !StoredRecordValid(state.value) then Err(Corrupt)
    else if state.value.config != r.config then Err(ConfigImmutable)
    else if r.revision != state.value.revision + 1 then Err(RevisionConflict)
    else if r.platformEvidence.Some? && !verify(r.platformEvidence.value) then Err(EvidenceUnverified)
    else Ok(r)
  }

  function LoadOutcome(state: Option<Record>): Result<Record, StoreError> {
    if state.None? then Err(NotFound)
    else if !StoredRecordValid(state.value) then Err(Corrupt)
    else Ok(state.value)
  }

  /** The campaign state file of one task.  Each method is one critical section. */
  class Store {
    var state: Option<Record>

    constructor ()
      ensures state == None
    {
      state := None;
    }

    method Create(config: Config, platform: Artifact) returns (r: Result<Record, StoreError>)
      modifies this
      ensures r == CreateOutcome(old(state), config, platform)
      ensures state == if r.Ok? then Some(r.value) else old(state)
    {
      if state.Some? { return Err(AlreadyExists); }
      var record := New(config, Some(platform));
      state := Some(record);
      return Ok(record);
    }

    method Load() returns (r: Result<Record, StoreError>)
      ensures r == LoadOutcome(state)
    {
      if state.None? { return Err(NotFound); }
      if !StoredRecordValid(state.value) { return Err(Corrupt); }
      return Ok(state.value);
    }

    method Save(verify: Verifier, record: Record) returns (r: Result<Record, StoreError>)
      modifies this
      ensures r == SaveOutcome(verify, old(state), record)
      ensures state == if r.Ok? then Some(record) else old(state)
    {
      var current := Load();
      if current.Err? { return current; }
      if current.value.config != record.config { return Err(ConfigImmutable); }
      var expected := current.value.revision + 1;
      if record.revision != expected { return Err(RevisionConflict); }
      if record.platformEvidence.Some? && !verify(record.platformEvidence.value) {
        return Err(EvidenceUnverified);
      }
      state := Some(record);
      return Ok(record);
    }
  }

  /******* Many clients on one cell *******/

  /** A client holds nothing, a loaded record, or a record it derived by one call. */
  datatype Client =
    | Idle
    | Loaded(base: Record)
    | Prepared(base: Record, call: Call, next: Record)

  /** `history` lists every record the cell has held, oldest first; the cell holds
      the last one.  `log` lists the calls that produced them. */
  datatype System = System(history: seq<Record>, log: seq<Call>, clients: map<nat, Client>)

  datatype Event =
    | CreateCampaignEvent(config: Config, platform: Artifact)
    | LoadEvent(client: nat)
    | ApplyEvent(client: nat, call: Call)
    | SaveEvent(client: nat)
    | CrashEvent(client: nat)

  function Cell(s: System): Option<Record> {
    if s.history == [] then None else Some(s.history[|s.history| - 1])
  }

  function ClientOf(s: System, c: nat): Client {
    if c in s.clients then s.clients[c] else Idle
  }

  /** One event; an event that is not enabled, or is refused, leaves the cell alone. */
  function Next(h: Fingerprinter, verify: Verifier, s: System, e: Event): System {
    match e
    case CreateCampaignEvent(config, platform) =>
      if !ConfigValid(config) || CreateOutcome(Cell(s), config, platform).Err? then s
      else s.(history := [CreateOutcome(Cell(s), config, platform).value])
    case LoadEvent(c) =>
      if LoadOutcome(Cell(s)).Err? then s
      else s.(clients := s.clients[c := Loaded(LoadOutcome(Cell(s)).value)])
    case ApplyEvent(c, call) =>
      if !ClientOf(s, c).Loaded? || !CallValid(call) then s
      else
        var result := Step(h, ClientOf(s, c).base, call);
        s.(clients := s.clients[c := if result.Ok? then Prepared(ClientOf(s, c).base, call, result.value) else Idle])
    case SaveEvent(c) =>
      if !ClientOf(s, c).Prepared? then s
      else if SaveOutcome(verify, Cell(s), ClientOf(s, c).next).Err? then
        s.(clients := s.clients[c := Idle])
      else
        System(s.history + [ClientOf(s, c).next], s.log + [ClientOf(s, c).call], s.clients[c := Idle])
    case CrashEvent(c) => s.(clients := s.clients - {c})
  }

  function Execute(h: Fingerprinter, verify: Verifier, events: seq<Event>): System {
    if events == [] then System([], [], map[])
    else Next(h, verify, Execute(h, verify, events[..|events| - 1]), events[|events| - 1])
  }

  /** The persisted history is one run of the engine. */
  predicate HistoryIsRun(h: Fingerprinter, s: System) {
    if s.history == [] then s.log == []
    else IsRun(h, s.history[0].config, s.history[0].platformEvidence, s.history, s.log)
  }

  /** A client's base is the record the history holds at that revision. */
  predicate BaseInHistory(s: System, base: Record) {
    base.revision < |s.history| && s.history[base.revision] == base
  }

  predicate ClientsConsistent(h: Fingerprinter, s: System) {
    forall c :: c in s.clients ==>
      match s.clients[c]
      case Idle => true
      case Loaded(base) => BaseInHistory(s, base)
      case Prepared(base, call, next) =>
        BaseInHistory(s, base) && CallValid(call) && Step(h, base, call) == Ok(next)
  }

  predicate Consistent(h: Fingerprinter, s: System) {
    HistoryIsRun(h, s) && ClientsConsistent(h, s)
  }

  /** What the cell holds in a consistent system. */
  lemma CellFacts(h: Fingerprinter, s: System)
    requires HistoryIsRun(h, s) && s.history != []
    ensures Inv(Cell(s).value) && StoredRecordValid(Cell(s).value)
    ensures Cell(s).value.revision == |s.history| - 1
    ensures Cell(s).value.config == s.history[0].config
  {
    var config, platform, n := s.history[0].config, s.history[0].platformEvidence, |s.history| - 1;
    RunInv(h, config, platform, s.history, s.log, n);
    RunLedgerMirrors(h, config, platform, s.history, s.log, n);
  }

  lemma BaseFacts(h: Fingerprinter, s: System, base: Record)
    requires HistoryIsRun(h, s) && BaseInHistory(s, base)
    ensures Inv(base) && base.config == s.history[0].config && base.revision < |s.history|
    ensures base.revision == |s.history| - 1 ==> base == Cell(s).value
  {
    RunInv(h, s.history[0].config, s.history[0].platformEvidence, s.history, s.log, base.revision);
  }

  /** A save that the store accepts was derived from the record it replaces. */
  lemma SavedFromCell(h: Fingerprinter, verify: Verifier, s: System, base: Record, call: Call, next: Record)
    requires HistoryIsRun(h, s) && BaseInHistory(s, base) && Step(h, base, call) == Ok(next)
    requires SaveOutcome(verify, Cell(s), next).Ok?
    ensures base == Cell(s).value
  {
    CellFacts(h, s);
    BaseFacts(h, s, base);
    StepDecreases(h, base, call);
  }

  lemma IdleConsistent(h: Fingerprinter, s: System, c: nat)
    requires Consistent(h, s)
    ensures Consistent(h, s.(clients := s.clients[c := Idle]))
  {}

  lemma SaveConsistent(h: Fingerprinter, verify: Verifier, s: System, c: nat)
    requires Consistent(h, s) && ClientOf(s, c).Prepared?
    ensures Consistent(h, Next(h, verify, s, SaveEvent(c)))
  {
    var p := ClientOf(s, c);
    if SaveOutcome(verify, Cell(s), p.next).Ok? {
      SavedConsistent(h, verify, s, c, p.base, p.call, p.next);
    } else {
      IdleConsistent(h, s, c);
    }
  }

  lemma SavedConsistent(h: Fingerprinter, verify: Verifier, s: System, c: nat, base: Record, call: Call, next: Record)
    requires Consistent(h, s) && BaseInHistory(s, base) && CallValid(call) && Step(h, base, call) == Ok(next)
    requires SaveOutcome(verify, Cell(s), next).Ok?
    ensures Consistent(h, System(s.history + [next], s.log + [call], s.clients[c := Idle]))
  {
    SavedFromCell(h, verify, s, base, call, next);
    ExtendRun(h, s.history[0].config, s.history[0].platformEvidence, s.history, s.log, call, next);
  }

  lemma NextConsistent(h: Fingerprinter, verify: Verifier, s: System, e: Event)
    requires Consistent(h, s)
    ensures Consistent(h, Next(h, verify, s, e))
    ensures s.history <= Next(h, verify, s, e).history
  {
    match e
    case SaveEvent(c) => if ClientOf(s, c).Prepared? { SaveConsistent(h, verify, s, c); }
    case LoadEvent(c) => LoadConsistent(h, verify, s, c);
    case CreateCampaignEvent(config, platform) =>
    case ApplyEvent(c, call) =>
    case CrashEvent(c) =>
  }

  lemma LoadConsistent(h: Fingerprinter, verify: Verifier, s: System, c: nat)
    requires Consistent(h, s)
    ensures Consistent(h, Next(h, verify, s, LoadEvent(c)))
  {
    if s.history != [] { CellFacts(h, s); }
  }

  /** Whatever the clients do and however they crash, the persisted history is a
      single run of the engine from revision zero: every saved record was derived
      by one call from the record it replaced, and the configuration never changes. */
  lemma {:induction false} HistoryTheorem(h: Fingerprinter, verify: Verifier, events: seq<Event>)
    ensures Consistent(h, Execute(h, verify, events))
    ensures var s := Execute(h, verify, events);
            forall i :: 0 <= i < |s.history| ==>
              Inv(s.history[i]) && s.history[i].revision == i && s.history[i].config == s.history[0].config
  {
    var s := Execute(h, verify, events);
    if events != [] {
      HistoryTheorem(h, verify, events[..|events| - 1]);
      NextConsistent(h, verify, Execute(h, verify, events[..|events| - 1]), events[|events| - 1]);
    }
    forall i | 0 <= i < |s.history|
      ensures Inv(s.history[i]) && s.history[i].revision == i && s.history[i].config == s.history[0].config
    {
      RunInv(h, s.history[0].config, s.history[0].platformEvidence, s.history, s.log, i);
    }
  }

  /** Nothing that was saved is ever lost: later histories extend earlier ones. */
  lemma {:induction false} HistoryGrows(h: Fingerprinter, verify: Verifier, events: seq<Event>, n: nat)
    requires n <= |events|
    ensures Execute(h, verify, events[..n]).history <= Execute(h, verify, events).history
    decreases |events| - n
  {
    if n == |events| {
      assert events[..n] == events;
    } else {
      HistoryGrows(h, verify, events, n + 1);
      HistoryTheorem(h, verify, events[..n]);
      NextConsistent(h, verify, Execute(h, verify, events[..n]), events[n]);
      assert events[..n + 1][..n] == events[..n];
    }
  }

  /** Whatever the clients do, loading returns the record that was saved last, with the
      number of saves as its revision; it is refused only before creation. */
  lemma LoadReturnsLatest(h: Fingerprinter, verify: Verifier, events: seq<Event>)
    ensures var s := Execute(h, verify, events);
            if s.history == [] then LoadOutcome(Cell(s)).Err?
            else
              && LoadOutcome(Cell(s)) == Ok(s.history[|s.history| - 1])
              && LoadOutcome(Cell(s)).value.revision == |s.log|
  {
    HistoryTheorem(h, verify, events);
    var s := Execute(h, verify, events);
    if s.history != [] { CellFacts(h, s); }
  }

  /** A prepared client saves if and only if nobody saved since it loaded. */
  lemma SaveSucceedsIffFresh(h: Fingerprinter, verify: Verifier, events: seq<Event>, c: nat)
    requires ClientOf(Execute(h, verify, events), c).Prepared?
    requires var p := ClientOf(Execute(h, verify, events), c).next.platformEvidence; p.Some? ==> verify(p.value)
    ensures var s := Execute(h, verify, events);
            var p := ClientOf(s, c);
            SaveOutcome(verify, Cell(s), p.next).Ok? <==> Cell(s) == Some(p.base)
  {
    var s := Execute(h, verify, events);
    var p := ClientOf(s, c);
    HistoryTheorem(h, verify, events);
    CellFacts(h, s);
    BaseFacts(h, s, p.base);
    StepDecreases(h, p.base, p.call);
  }
}
