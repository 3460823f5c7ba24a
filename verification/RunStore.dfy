// The run and event store of agent/apps/api/server.ts with the idempotency keys of
// agent/src/core/idempotency.ts: what each request does to the store and answers.
module RunStore {
  import opened Sequences
  import opened Text
  import opened Decimal

  datatype RunState = Intake | Working | Done | Failed | Cancelled

  datatype Principal = Principal(userId: string, organizationId: string, projectId: string)  // "" for no project

  // The input as parsed; `maxCostPerRun` is the budget, which only the idempotency keys look at.
  datatype RunInput = RunInput(
    request: string, computeMode: string, privacyLevel: Option<string>, autonomyLevel: Option<string>,
    maxCostPerRun: Option<real>)

  datatype Run = Run(
    runId: string, organizationId: string, projectId: string, createdBy: string, request: string,
    computeMode: string, privacyLevel: string, autonomyLevel: string, state: RunState, createdAt: int, updatedAt: int)

  datatype EventType = RunCreated | RunCancelled

  datatype Event = Event(
    id: string, sequence: nat, kind: EventType, runId: string, organizationId: string,
    actorId: string, timestamp: int, payload: seq<(string, string)>)

  datatype Stored = Stored(status: nat, run: Run, event: Event)

  // What an idempotency key was first used for.
  datatype Request = CreateRequest(projectId: string, input: RunInput) | CancelRequest(runId: string)

  datatype KeyEntry = KeyEntry(organizationId: string, request: Request, expiresAt: int, response: Option<Stored>)

  datatype Store = Store(
    runs: map<string, Run>, events: map<string, seq<Event>>, runCounter: nat, keys: map<string, KeyEntry>)

  const EMPTY := Store(map[], map[], 0, map[])
  const TTL_MS := 24 * 60 * 60 * 1000

  datatype Response =
    | Problem(status: nat)
    | Answer(stored: Stored, replayed: bool)
    | Detail(run: Run)
    | Sse(events: seq<Event>)

  // ---- The store's own operations ----

  function RunId(n: nat, suffix: string): string { "run_" + Print(n) + "_" + suffix }

  function EventId(runId: string, sequence: nat): string { runId + ":" + Print(sequence) }

  function NewRun(runId: string, principal: Principal, projectId: string, input: RunInput, now: int): Run {
    Run(runId, principal.organizationId, projectId, principal.userId, input.request, input.computeMode,
        if input.privacyLevel.Some? then input.privacyLevel.value else "private",
        if input.autonomyLevel.Some? then input.autonomyLevel.value else "supervised",
        Intake, now, now)
  }

  function NewEvent(run: Run, sequence: nat, kind: EventType, actor: Principal, payload: seq<(string, string)>,
          now: int): Event {
    Event(EventId(run.runId, sequence), sequence, kind, run.runId, run.organizationId, actor.userId, now, payload)
  }

  function Later(events: seq<Event>, afterSequence: int): seq<Event> {
    if events == [] then []
    else (if events[0].sequence > afterSequence then [events[0]] else []) + Later(events[1..], afterSequence)
  }

  function EventsFor(s: Store, runId: string, afterSequence: int): seq<Event> {
    if runId in s.events then Later(s.events[runId], afterSequence) else []
  }

  // `findAuthorizedRun`
  function FindAuthorizedRun(s: Store, runId: string, principal: Principal): Option<Run> {
    if runId !in s.runs then None
    else
      var run := s.runs[runId];
      if run.organizationId != principal.organizationId then None
      else if principal.projectId != "" && principal.projectId != run.projectId then None
      else Some(run)
  }

  // `parseLastEventId`; `number` stands for the conversion of texts that are not plain digits.
  function ParseLastEventId(value: string, runId: string, number: string -> Option<int>): (after: int)
    ensures after >= -1
  {
    var prefix := runId + ":";
    if value == "" || !(prefix <= value) then -1
    else
      var text := value[|prefix|..];
      var sequence :=
        if text == "" then Some(0)
        else if IsDecimal(text) then Some(Value(text))
        else number(text);
      if sequence.Some? && sequence.value >= -1 then sequence.value else -1
  }

  // ---- Idempotency keys ----

  datatype Begin = New | InFlight | Replay(response: Stored) | Conflict | Throws

  predicate IsKeyChar(c: char) { IsWordChar(c) || c == '.' || c == ':' }

  predicate ValidKey(key: string) { 8 <= |key| <= 128 && forall c :: c in key ==> IsKeyChar(c) }

  // `begin`: what the key says; requests are compared themselves, not by their hash.
  function BeginKey(keys: map<string, KeyEntry>, key: string, organizationId: string, request: Request,
          now: int): Begin {
    if !ValidKey(key) || TrimStart(organizationId) == "" then Throws
    else if key !in keys || keys[key].expiresAt <= now then New
    else if keys[key].organizationId != organizationId || keys[key].request != request then Conflict
    else if keys[key].response == None then InFlight
    else Replay(keys[key].response.value)
  }

  // ---- Requests ----

  datatype Body = Good(input: RunInput) | Bad(status: nat)

  // A request as the handlers see it: the caller is authenticated, `permitted` is the verdict
  // of `authorize`, `key` is "" when no idempotency key is sent.
  datatype Call =
    | Create(principal: Principal, permitted: bool, projectId: string, body: Body, key: string, suffix: string,
            now: int)
    | Cancel(principal: Principal, permitted: bool, runId: string, key: string, now: int)
    | GetRun(principal: Principal, runId: string)
    | GetEvents(principal: Principal, runId: string, lastEventId: string)

  function CreateRun(s: Store, call: Call, input: RunInput): (Store, Stored)
    requires call.Create?
  {
    var n := s.runCounter + 1;
    var run := NewRun(RunId(n, call.suffix), call.principal, call.projectId, input, call.now);
    var event := NewEvent(run, 0, RunCreated, call.principal,
                          [("computeMode", run.computeMode), ("privacyLevel", run.privacyLevel)], call.now);
    var stored := Stored(201, run, event);
    (Store(s.runs[run.runId := run], s.events[run.runId := [event]], n,
           s.keys[call.key := KeyEntry(call.principal.organizationId, CreateRequest(call.projectId, input),
                                       call.now + TTL_MS, Some(stored))]),
     stored)
  }

  function CancelState(state: RunState): RunState {
    if state == Done || state == Failed then state else Cancelled
  }

  function CancelRun(s: Store, call: Call): (Store, Stored)
    requires call.Cancel? && call.runId in s.runs && call.runId in s.events
  {
    var run := s.runs[call.runId].(state := CancelState(s.runs[call.runId].state), updatedAt := call.now);
    var event := NewEvent(run, |s.events[call.runId]|, RunCancelled, call.principal, [], call.now);
    var stored := Stored(200, run, event);
    (Store(s.runs[call.runId := run], s.events[call.runId := s.events[call.runId] + [event]], s.runCounter,
           s.keys[call.key := KeyEntry(call.principal.organizationId, CancelRequest(call.runId),
                                       call.now + TTL_MS, Some(stored))]),
     stored)
  }

  function ByKey(begin: Begin): Response
    requires !begin.New?
  {
    match begin
    case Throws => Problem(500)
    case Replay(response) => Answer(response, true)
    case _ => Problem(409)
  }

  function HandleCreate(s: Store, call: Call): (Store, Response)
    requires call.Create?
  {
    if !call.permitted then (s, Problem(403))
    else if call.principal.projectId != "" && call.principal.projectId != call.projectId then (s, Problem(404))
    else if call.body.Bad? then (s, Problem(call.body.status))
    else if call.key == "" then (s, Problem(400))
    else
      var begin := BeginKey(s.keys, call.key, call.principal.organizationId,
                            CreateRequest(call.projectId, call.body.input), call.now);
      if !begin.New? then (s, ByKey(begin))
      else
        var (t, stored) := CreateRun(s, call, call.body.input);
        (t, Answer(stored, false))
  }

  function HandleCancel(s: Store, call: Call): (Store, Response)
    requires call.Cancel? && s.runs.Keys == s.events.Keys
  {
    if FindAuthorizedRun(s, call.runId, call.principal) == None then (s, Problem(404))
    else if !call.permitted then (s, Problem(403))
    else if call.key == "" then (s, Problem(400))
    else
      var begin := BeginKey(s.keys, call.key, call.principal.organizationId, CancelRequest(call.runId), call.now);
      if !begin.New? then (s, ByKey(begin))
      else
        var (t, stored) := CancelRun(s, call);
        (t, Answer(stored, false))
  }

  function HandleEvents(s: Store, principal: Principal, runId: string, lastEventId: string,
          number: string -> Option<int>): Response {
    if FindAuthorizedRun(s, runId, principal) == None then Problem(404)
    else Sse(EventsFor(s, runId, ParseLastEventId(lastEventId, runId, number)))
  }

  function HandleGet(s: Store, principal: Principal, runId: string): Response {
    match FindAuthorizedRun(s, runId, principal)
    case None => Problem(404)
    case Some(run) => Detail(run)
  }

  function Handle(s: Store, call: Call, number: string -> Option<int>): (Store, Response)
    requires s.runs.Keys == s.events.Keys
  {
    match call
    case Create(_, _, _, _, _, _, _) => HandleCreate(s, call)
    case Cancel(_, _, _, _, _) => HandleCancel(s, call)
    case GetRun(principal, runId) => (s, HandleGet(s, principal, runId))
    case GetEvents(principal, runId, lastEventId) => (s, HandleEvents(s, principal, runId, lastEventId, number))
  }

  // ---- The store as an object ----

  class InMemoryApiStore {
    var runs: map<string, Run>
    var events: map<string, seq<Event>>
    var runCounter: nat
    var keys: map<string, KeyEntry>

    constructor ()
      ensures Now() == EMPTY
    {
      runs, events, runCounter, keys := map[], map[], 0, map[];
    }

    function Now(): Store
      reads this
    {
      Store(runs, events, runCounter, keys)
    }

    method CreateRun(principal: Principal, projectId: string, input: RunInput, suffix: string, now: int)
        returns (run: Run)
      modifies this
      ensures runCounter == old(runCounter) + 1
      ensures run == NewRun(RunId(runCounter, suffix), principal, projectId, input, now)
      ensures runs == old(runs)[run.runId := run] && events == old(events)[run.runId := []] && keys == old(keys)
    {
      runCounter := runCounter + 1;
      run := NewRun(RunId(runCounter, suffix), principal, projectId, input, now);
      runs := runs[run.runId := run];
      events := events[run.runId := []];
    }

    method CancelRun(runId: string, now: int) returns (run: Run)
      requires runId in runs
      modifies this`runs
      ensures run == old(runs)[runId].(state := CancelState(old(runs)[runId].state), updatedAt := now)
      ensures runs == old(runs)[runId := run]
    {
      run := runs[runId].(state := CancelState(runs[runId].state), updatedAt := now);
      runs := runs[runId := run];
    }

    method AppendEvent(run: Run, kind: EventType, actor: Principal, payload: seq<(string, string)>, now: int)
        returns (event: Event)
      requires run.runId in events
      modifies this`events
      ensures event == NewEvent(run, |old(events)[run.runId]|, kind, actor, payload, now)
      ensures events == old(events)[run.runId := old(events)[run.runId] + [event]]
    {
      var list := events[run.runId];
      event := NewEvent(run, |list|, kind, actor, payload, now);
      events := events[run.runId := list + [event]];
    }

    method Complete(key: string, organizationId: string, request: Request, stored: Stored, now: int)
      modifies this`keys
      ensures keys == old(keys)[key := KeyEntry(organizationId, request, now + TTL_MS, Some(stored))]
    {
      keys := keys[key := KeyEntry(organizationId, request, now + TTL_MS, Some(stored))];
    }

    // The create branch of `routeRequest`.
    method Create(call: Call) returns (response: Response)
      requires call.Create?
      modifies this
      ensures (Now(), response) == HandleCreate(old(Now()), call)
    {
      if !call.permitted {
        return Problem(403);
      }
      if call.principal.projectId != "" && call.principal.projectId != call.projectId {
        return Problem(404);
      }
      if call.body.Bad? {
        return Problem(call.body.status);
      }
      if call.key == "" {
        return Problem(400);
      }
      var input := call.body.input;
      var request := CreateRequest(call.projectId, input);
      var begin := BeginKey(keys, call.key, call.principal.organizationId, request, call.now);
      if !begin.New? {
        return ByKey(begin);
      }
      var run := CreateRun(call.principal, call.projectId, input, call.suffix, call.now);
      var event := AppendEvent(run, RunCreated, call.principal,
                               [("computeMode", run.computeMode), ("privacyLevel", run.privacyLevel)], call.now);
      assert [] + [event] == [event];
      assert events == old(events)[run.runId := [event]];
      var stored := Stored(201, run, event);
      Complete(call.key, call.principal.organizationId, request, stored, call.now);
      return Answer(stored, false);
    }

    // The cancel branch of `routeRequest`.
    method Cancel(call: Call) returns (response: Response)
      requires call.Cancel? && runs.Keys == events.Keys
      requires call.runId in runs ==> runs[call.runId].runId == call.runId
      modifies this
      ensures (Now(), response) == HandleCancel(old(Now()), call)
    {
      var found := FindAuthorizedRun(Now(), call.runId, call.principal);
      if found == None {
        return Problem(404);
      }
      if !call.permitted {
        return Problem(403);
      }
      if call.key == "" {
        return Problem(400);
      }
      var request := CancelRequest(call.runId);
      var begin := BeginKey(keys, call.key, call.principal.organizationId, request, call.now);
      if !begin.New? {
        return ByKey(begin);
      }
      var updated := CancelRun(call.runId, call.now);
      var event := AppendEvent(updated, RunCancelled, call.principal, [], call.now);
      var stored := Stored(200, updated, event);
      Complete(call.key, call.principal.organizationId, request, stored, call.now);
      return Answer(stored, false);
    }
  }
}
