// What holds at every handler boundary of the API server, over all runs of requests.
module RunStoreLaws {
  import opened Sequences
  import opened Decimal
  import opened RunStore

  // ---- Identifiers ----

  lemma CutAtUnderscore(a: string, s: string, b: string, t: string)
    requires AllDigits(a) && AllDigits(b) && a + "_" + s == b + "_" + t
    ensures a == b
  {
    var whole := a + "_" + s;
    assert whole[|a|] == '_' && whole[|b|] == '_';
    assert whole[..|a|] == a && whole[..|b|] == b;
    assert forall i :: 0 <= i < |a| ==> whole[i] == a[i];
    assert forall i :: 0 <= i < |b| ==> whole[i] == b[i];
    assert |a| == |b|;
  }

  // Two runs never share an id, whatever the random suffixes.
  lemma RunIdsDiffer(n: nat, s: string, m: nat, t: string)
    requires RunId(n, s) == RunId(m, t)
    ensures n == m
  {
    ValueOfPrint(n);
    ValueOfPrint(m);
    assert RunId(n, s)[4..] == Print(n) + "_" + s;
    assert RunId(m, t)[4..] == Print(m) + "_" + t;
    CutAtUnderscore(Print(n), s, Print(m), t);
  }

  // The id printed with an event is read back as its sequence number.
  lemma LastEventIdRoundTrip(runId: string, sequence: nat, number: string -> Option<int>)
    ensures ParseLastEventId(EventId(runId, sequence), runId, number) == sequence
  {
    var prefix := runId + ":";
    assert EventId(runId, sequence) == prefix + Print(sequence);
    assert EventId(runId, sequence)[|prefix|..] == Print(sequence);
    ValueOfPrint(sequence);
  }

  // ---- The invariant ----

  // A log agrees with the materialised run.
  predicate Agrees(run: Run, log: seq<Event>) {
    && log != []
    && (forall i :: 0 <= i < |log| ==>
          && log[i].sequence == i && log[i].id == EventId(run.runId, i)
          && log[i].runId == run.runId && log[i].organizationId == run.organizationId
          && log[i].kind == if i == 0 then RunCreated else RunCancelled)
    && (run.state == Intake || run.state == Cancelled)
    && (run.state == Cancelled <==> exists e :: e in log && e.kind == RunCancelled)
  }

  ghost predicate Numbered(id: string, counter: nat) {
    exists n: nat, suffix: string :: n <= counter && id == RunId(n, suffix)
  }

  ghost predicate RunKept(id: string, run: Run, log: seq<Event>, counter: nat) {
    run.runId == id && Agrees(run, log) && Numbered(id, counter)
  }

  ghost predicate RunsKept(runs: map<string, Run>, events: map<string, seq<Event>>, counter: nat) {
    && runs.Keys == events.Keys
    && forall id :: id in runs ==> RunKept(id, runs[id], events[id], counter)
  }

  // The project of the run that a request is about.
  predicate ProjectKept(request: Request, run: Run, runs: map<string, Run>) {
    match request
    case CreateRequest(projectId, _) => run.projectId == projectId
    case CancelRequest(runId) => runId in runs && runs[runId].projectId == run.projectId
  }

  // A recorded answer belongs to the organization of its key and to the project of its request.
  predicate KeyKept(entry: KeyEntry, runs: map<string, Run>) {
    entry.response.Some? ==>
      && entry.response.value.run.organizationId == entry.organizationId
      && entry.response.value.event.organizationId == entry.organizationId
      && ProjectKept(entry.request, entry.response.value.run, runs)
  }

  predicate KeysKept(keys: map<string, KeyEntry>, runs: map<string, Run>) {
    forall k :: k in keys ==> KeyKept(keys[k], runs)
  }

  ghost predicate WellKept(s: Store) {
    RunsKept(s.runs, s.events, s.runCounter) && KeysKept(s.keys, s.runs)
  }

  lemma NewRunAgrees(run: Run, event: Event)
    requires run.state == Intake
    requires event.sequence == 0 && event.id == EventId(run.runId, 0)
    requires event.runId == run.runId && event.organizationId == run.organizationId && event.kind == RunCreated
    ensures Agrees(run, [event])
  {
  }

  lemma CancelledAgrees(before: Run, log: seq<Event>, run: Run, event: Event)
    requires Agrees(before, log)
    requires run == before.(state := Cancelled, updatedAt := run.updatedAt)
    requires event.sequence == |log| && event.id == EventId(run.runId, |log|)
    requires event.runId == run.runId && event.organizationId == run.organizationId && event.kind == RunCancelled
    ensures Agrees(run, log + [event])
  {
    var longer := log + [event];
    assert longer[|log|] == event && event in longer;
  }

  lemma FreshId(s: Store, suffix: string)
    requires WellKept(s)
    ensures RunId(s.runCounter + 1, suffix) !in s.runs
  {
    var id := RunId(s.runCounter + 1, suffix);
    if id in s.runs {
      var n: nat, t: string :| n <= s.runCounter && id == RunId(n, t);
      RunIdsDiffer(s.runCounter + 1, suffix, n, t);
    }
  }

  // What one request leaves alone: runs stay, with owner and project; logs only grow.
  predicate Extends(s: Store, t: Store) {
    && (forall id :: id in s.runs ==>
          && id in t.runs
          && t.runs[id].organizationId == s.runs[id].organizationId
          && t.runs[id].projectId == s.runs[id].projectId)
    && (forall id :: id in s.events ==> id in t.events && s.events[id] <= t.events[id])
  }

  lemma NumberedStays(id: string, counter: nat)
    requires Numbered(id, counter)
    ensures Numbered(id, counter + 1)
  {
    var m: nat, t: string :| m <= counter && id == RunId(m, t);
    assert m <= counter + 1;
  }

  lemma AddRun(runs: map<string, Run>, events: map<string, seq<Event>>, counter: nat, suffix: string, run: Run,
          event: Event)
    requires RunsKept(runs, events, counter)
    requires run.runId == RunId(counter + 1, suffix) && Agrees(run, [event])
    ensures RunsKept(runs[run.runId := run], events[run.runId := [event]], counter + 1)
  {
    forall other | other in runs
      ensures RunKept(other, runs[other], events[other], counter + 1)
    {
      assert RunKept(other, runs[other], events[other], counter);
      NumberedStays(other, counter);
    }
    assert Numbered(run.runId, counter + 1);
    assert RunKept(run.runId, run, [event], counter + 1);
  }

  lemma CreateEffect(s: Store, call: Call)
    requires call.Create?
    ensures var t := HandleCreate(s, call).0;
            t == s || (call.body.Good? && t == CreateRun(s, call, call.body.input).0)
  {
  }

  // Recording an answer, while runs keep their projects.
  lemma KeepKey(keys: map<string, KeyEntry>, key: string, entry: KeyEntry,
          runs: map<string, Run>, after: map<string, Run>)
    requires KeysKept(keys, runs) && KeyKept(entry, after)
    requires forall id :: id in runs ==> id in after && after[id].projectId == runs[id].projectId
    ensures KeysKept(keys[key := entry], after)
  {
    forall k | k in keys
      ensures KeyKept(keys[k], after)
    {
      assert KeyKept(keys[k], runs);
    }
  }

  lemma AddsFresh(s: Store, t: Store, id: string, run: Run, log: seq<Event>)
    requires s.runs.Keys == s.events.Keys && id !in s.runs
    requires t.runs == s.runs[id := run] && t.events == s.events[id := log]
    ensures Extends(s, t)
  {
  }

  lemma CreateRunKeeps(s: Store, call: Call, input: RunInput)
    requires call.Create? && WellKept(s)
    ensures WellKept(CreateRun(s, call, input).0) && Extends(s, CreateRun(s, call, input).0)
  {
    var (t, stored) := CreateRun(s, call, input);
    FreshId(s, call.suffix);
    NewRunAgrees(stored.run, stored.event);
    AddRun(s.runs, s.events, s.runCounter, call.suffix, stored.run, stored.event);
    KeepKey(s.keys, call.key, t.keys[call.key], s.runs, t.runs);
    AddsFresh(s, t, stored.run.runId, stored.run, [stored.event]);
  }

  lemma CreateKeeps(s: Store, call: Call)
    requires call.Create? && WellKept(s)
    ensures WellKept(HandleCreate(s, call).0) && Extends(s, HandleCreate(s, call).0)
  {
    CreateEffect(s, call);
    if HandleCreate(s, call).0 != s {
      CreateRunKeeps(s, call, call.body.input);
    }
  }

  lemma ReplaceRun(runs: map<string, Run>, events: map<string, seq<Event>>, counter: nat, run: Run, log: seq<Event>)
    requires RunsKept(runs, events, counter)
    requires run.runId in runs && Agrees(run, log)
    ensures RunsKept(runs[run.runId := run], events[run.runId := log], counter)
  {
    assert RunKept(run.runId, runs[run.runId], events[run.runId], counter);
    assert RunKept(run.runId, run, log, counter);
  }

  lemma CancelEffect(s: Store, call: Call)
    requires call.Cancel? && s.runs.Keys == s.events.Keys
    ensures var t := HandleCancel(s, call).0;
            || t == s
            || (&& call.runId in s.runs
                && s.runs[call.runId].organizationId == call.principal.organizationId
                && t == CancelRun(s, call).0)
  {
  }

  lemma GrowsOne(s: Store, t: Store, run: Run, log: seq<Event>)
    requires s.runs.Keys == s.events.Keys && run.runId in s.runs
    requires s.runs[run.runId].organizationId == run.organizationId && s.runs[run.runId].projectId == run.projectId
    requires s.events[run.runId] <= log
    requires t.runs == s.runs[run.runId := run] && t.events == s.events[run.runId := log]
    ensures Extends(s, t)
  {
  }

  lemma CancelRunKeysKept(s: Store, call: Call)
    requires call.Cancel? && KeysKept(s.keys, s.runs) && call.runId in s.runs && call.runId in s.events
    requires s.runs[call.runId].organizationId == call.principal.organizationId
    ensures var t := CancelRun(s, call).0; KeysKept(t.keys, t.runs)
  {
    var t := CancelRun(s, call).0;
    KeepKey(s.keys, call.key, t.keys[call.key], s.runs, t.runs);
  }

  lemma CancelRunsKept(s: Store, call: Call)
    requires call.Cancel? && RunsKept(s.runs, s.events, s.runCounter) && call.runId in s.runs
    ensures var t := CancelRun(s, call).0; RunsKept(t.runs, t.events, t.runCounter) && Extends(s, t)
  {
    var (t, stored) := CancelRun(s, call);
    var log := s.events[call.runId];
    CancelledAgrees(s.runs[call.runId], log, stored.run, stored.event);
    ReplaceRun(s.runs, s.events, s.runCounter, stored.run, log + [stored.event]);
    GrowsOne(s, t, stored.run, log + [stored.event]);
  }

  lemma CancelRunKeeps(s: Store, call: Call)
    requires call.Cancel? && WellKept(s) && call.runId in s.runs
    requires s.runs[call.runId].organizationId == call.principal.organizationId
    ensures WellKept(CancelRun(s, call).0) && Extends(s, CancelRun(s, call).0)
  {
    CancelRunsKept(s, call);
    CancelRunKeysKept(s, call);
  }

  lemma CancelKeeps(s: Store, call: Call)
    requires call.Cancel? && WellKept(s)
    ensures WellKept(HandleCancel(s, call).0) && Extends(s, HandleCancel(s, call).0)
  {
    CancelEffect(s, call);
    if HandleCancel(s, call).0 != s {
      CancelRunKeeps(s, call);
    }
  }

  lemma HandleKeeps(s: Store, call: Call, number: string -> Option<int>)
    requires WellKept(s)
    ensures WellKept(Handle(s, call, number).0) && Extends(s, Handle(s, call, number).0)
  {
    if call.Create? { CreateKeeps(s, call); }
    if call.Cancel? { CancelKeeps(s, call); }
  }

  // ---- Runs of requests ----

  ghost function After(s: Store, calls: seq<Call>, number: string -> Option<int>): (t: Store)
    requires WellKept(s)
    ensures WellKept(t)
  {
    if calls == [] then s else
      var before := After(s, calls[..|calls| - 1], number);
      HandleKeeps(before, calls[|calls| - 1], number);
      Handle(before, calls[|calls| - 1], number).0
  }

  lemma EmptyIsWellKept()
    ensures WellKept(EMPTY)
  {
  }

  // The store after a run of requests from an empty one.
  ghost function Serving(calls: seq<Call>, number: string -> Option<int>): Store {
    EmptyIsWellKept();
    After(EMPTY, calls, number)
  }

  // At every boundary the materialised runs agree with their logs.
  lemma LogsAgree(calls: seq<Call>, number: string -> Option<int>, id: string)
    ensures var s := Serving(calls, number);
            (id in s.runs <==> id in s.events) && (id in s.runs ==> Agrees(s.runs[id], s.events[id]))
  {
    var s := Serving(calls, number);
    assert WellKept(s);
  }

  // ---- Tenants ----

  // A run of the caller's organization and, for a caller with a project, of that project.
  predicate InScope(run: Run, principal: Principal) {
    && run.organizationId == principal.organizationId
    && (principal.projectId != "" ==> run.projectId == principal.projectId)
  }

  // Everything a response shows is of the caller's organization and project.
  predicate BelongsTo(response: Response, principal: Principal, runs: map<string, Run>) {
    match response
    case Problem(_) => true
    case Answer(stored, _) =>
      InScope(stored.run, principal) && stored.event.organizationId == principal.organizationId
    case Detail(run) => InScope(run, principal)
    case Sse(events) => forall e :: e in events ==>
      e.organizationId == principal.organizationId && e.runId in runs && InScope(runs[e.runId], principal)
  }

  lemma {:induction false} LaterMembers(events: seq<Event>, after: int)
    ensures forall e :: e in Later(events, after) ==> e in events
  {
    if events != [] { LaterMembers(events[1..], after); }
  }

  // What a key answers is recorded for the organization and the request.
  lemma AnswerIsRecorded(keys: map<string, KeyEntry>, key: string, organizationId: string, request: Request, now: int)
    requires BeginKey(keys, key, organizationId, request, now).Replay?
    ensures key in keys && keys[key].organizationId == organizationId && keys[key].request == request
    ensures keys[key].response == Some(BeginKey(keys, key, organizationId, request, now).response)
  {
  }

  lemma CreateBelongs(s: Store, call: Call)
    requires call.Create? && KeysKept(s.keys, s.runs)
    ensures BelongsTo(HandleCreate(s, call).1, call.principal, s.runs)
  {
    if HandleCreate(s, call).1.Answer? && HandleCreate(s, call).1.replayed {
      AnswerIsRecorded(s.keys, call.key, call.principal.organizationId,
                       CreateRequest(call.projectId, call.body.input), call.now);
      assert KeyKept(s.keys[call.key], s.runs);
    }
  }

  lemma CancelBelongs(s: Store, call: Call)
    requires call.Cancel? && KeysKept(s.keys, s.runs) && s.runs.Keys == s.events.Keys
    ensures BelongsTo(HandleCancel(s, call).1, call.principal, s.runs)
  {
    if HandleCancel(s, call).1.Answer? && HandleCancel(s, call).1.replayed {
      AnswerIsRecorded(s.keys, call.key, call.principal.organizationId, CancelRequest(call.runId), call.now);
      assert KeyKept(s.keys[call.key], s.runs);
    }
  }

  lemma EventsBelong(s: Store, principal: Principal, runId: string, lastEventId: string, number: string -> Option<int>)
    requires RunsKept(s.runs, s.events, s.runCounter)
    ensures BelongsTo(HandleEvents(s, principal, runId, lastEventId, number), principal, s.runs)
  {
    if runId in s.runs {
      var after := ParseLastEventId(lastEventId, runId, number);
      assert Agrees(s.runs[runId], s.events[runId]);
      LaterMembers(s.events[runId], after);
      forall e | e in Later(s.events[runId], after)
        ensures e.runId == runId && e.organizationId == s.runs[runId].organizationId
      {
        var i :| 0 <= i < |s.events[runId]| && s.events[runId][i] == e;
      }
    }
  }

  // No request is answered with data of another organization, nor a caller with a project with
  // data of another project; replays included.
  lemma TenantsAreApart(s: Store, call: Call, number: string -> Option<int>)
    requires WellKept(s)
    ensures BelongsTo(Handle(s, call, number).1, call.principal, s.runs)
  {
    match call {
      case Create(_, _, _, _, _, _, _) => CreateBelongs(s, call);
      case Cancel(_, _, _, _, _) => CancelBelongs(s, call);
      case GetRun(_, _) =>
      case GetEvents(principal, runId, lastEventId) => EventsBelong(s, principal, runId, lastEventId, number);
    }
  }

  // ---- Idempotency ----

  // A call that carries an idempotency key and a time.
  predicate Keyed(call: Call) { call.Create? || call.Cancel? }

  predicate Before(calls: seq<Call>, time: int) {
    forall c :: c in calls && Keyed(c) ==> c.now < time
  }

  lemma KeyStaysCreating(s: Store, call: Call, key: string)
    requires call.Create? && key in s.keys && call.now < s.keys[key].expiresAt
    ensures var t := HandleCreate(s, call).0; key in t.keys && t.keys[key] == s.keys[key]
  {
  }

  lemma KeyStaysCancelling(s: Store, call: Call, key: string)
    requires call.Cancel? && s.runs.Keys == s.events.Keys && key in s.keys && call.now < s.keys[key].expiresAt
    ensures var t := HandleCancel(s, call).0; key in t.keys && t.keys[key] == s.keys[key]
  {
  }

  lemma KeyStays(s: Store, call: Call, number: string -> Option<int>, key: string)
    requires s.runs.Keys == s.events.Keys && key in s.keys
    requires Keyed(call) ==> call.now < s.keys[key].expiresAt
    ensures key in Handle(s, call, number).0.keys && Handle(s, call, number).0.keys[key] == s.keys[key]
  {
    if call.Create? {
      KeyStaysCreating(s, call, key);
    } else if call.Cancel? {
      KeyStaysCancelling(s, call, key);
    }
  }

  lemma {:induction false} KeyStaysThroughout(s: Store, calls: seq<Call>, number: string -> Option<int>, key: string)
    requires WellKept(s) && key in s.keys && Before(calls, s.keys[key].expiresAt)
    ensures key in After(s, calls, number).keys && After(s, calls, number).keys[key] == s.keys[key]
  {
    if calls != [] {
      var front, last := calls[..|calls| - 1], calls[|calls| - 1];
      assert last in calls;
      KeyStaysThroughout(s, front, number, key);
      KeyStays(After(s, front, number), last, number, key);
    }
  }

  predicate SameRequest(a: Call, b: Call)
    requires Keyed(a) && Keyed(b)
  {
    && a.key == b.key && a.principal.organizationId == b.principal.organizationId
    && match (a, b)
       case (Create(_, _, p, x, _, _, _), Create(_, _, q, y, _, _, _)) => p == q && x == y
       case (Cancel(_, _, i, _, _), Cancel(_, _, j, _, _)) => i == j
       case _ => false
  }

  // The purpose recorded for a key.
  function Purpose(call: Call): Request
    requires Keyed(call) && (call.Create? ==> call.body.Good?)
  {
    if call.Create? then CreateRequest(call.projectId, call.body.input) else CancelRequest(call.runId)
  }

  // A new answer: the key was free, and now stands for the answer.
  predicate Recorded(t: Store, call: Call, response: Response)
    requires Keyed(call)
  {
    && response.Answer?
    && (call.Create? ==> call.body.Good?)
    && ValidKey(call.key) && call.key in t.keys
    && t.keys[call.key] == KeyEntry(call.principal.organizationId, Purpose(call), call.now + TTL_MS,
        Some(response.stored))
  }

  lemma CreateRecorded(s: Store, call: Call)
    requires call.Create?
    requires HandleCreate(s, call).1.Answer? && !HandleCreate(s, call).1.replayed
    ensures Recorded(HandleCreate(s, call).0, call, HandleCreate(s, call).1)
  {
  }

  lemma CancelRecorded(s: Store, call: Call)
    requires call.Cancel? && s.runs.Keys == s.events.Keys
    requires HandleCancel(s, call).1.Answer? && !HandleCancel(s, call).1.replayed
    ensures Recorded(HandleCancel(s, call).0, call, HandleCancel(s, call).1)
  {
  }

  lemma FirstAnswer(s: Store, call: Call, number: string -> Option<int>)
    requires s.runs.Keys == s.events.Keys && Keyed(call)
    requires Handle(s, call, number).1.Answer? && !Handle(s, call, number).1.replayed
    ensures Recorded(Handle(s, call, number).0, call, Handle(s, call, number).1)
  {
    if call.Create? { CreateRecorded(s, call); } else { CancelRecorded(s, call); }
  }

  lemma AnsweredByKey(s: Store, call: Call, entry: KeyEntry, number: string -> Option<int>)
    requires s.runs.Keys == s.events.Keys && Keyed(call) && (call.Create? ==> call.body.Good?)
    requires call.key in s.keys && s.keys[call.key] == entry
    requires entry.organizationId == call.principal.organizationId && entry.request == Purpose(call)
    requires call.now < entry.expiresAt && entry.response.Some?
    ensures Handle(s, call, number).0 == s
    ensures Handle(s, call, number).1.Answer? ==> Handle(s, call, number).1 == Answer(entry.response.value, true)
  {
    var begin := BeginKey(s.keys, call.key, call.principal.organizationId, Purpose(call), call.now);
    assert begin.Throws? || begin == Replay(entry.response.value);
  }

  lemma AfterOne(s: Store, call: Call, number: string -> Option<int>)
    requires WellKept(s)
    ensures After(s, [call], number) == Handle(s, call, number).0
  {
    assert [call][..0] == [];
    assert After(s, [], number) == s;
  }

  // A request that has changed the store, sent again with its key before the key expires and
  // whatever came between, changes nothing; if it is let through at all it gets the first
  // answer again.
  lemma SentAgain(s: Store, first: Call, between: seq<Call>, again: Call, number: string -> Option<int>)
    requires WellKept(s) && Keyed(first) && Keyed(again) && SameRequest(first, again)
    requires Handle(s, first, number).1.Answer? && !Handle(s, first, number).1.replayed
    requires Before(between, first.now + TTL_MS) && again.now < first.now + TTL_MS
    ensures var t := After(After(s, [first], number), between, number);
            && Handle(t, again, number).0 == t
            && (Handle(t, again, number).1.Answer? ==>
                  Handle(t, again, number).1 == Answer(Handle(s, first, number).1.stored, true))
  {
    var u := After(s, [first], number);
    AfterOne(s, first, number);
    FirstAnswer(s, first, number);
    var entry := u.keys[first.key];
    KeyStaysThroughout(u, between, number, first.key);
    AnsweredByKey(After(u, between, number), again, entry, number);
  }

  // ---- Event streams ----

  // A client of one run: the events it has received and the id of the last one.
  datatype Client = Client(received: seq<Event>, lastEventId: string)

  const NEW_CLIENT := Client([], "")

  // The server handles a request, or the client connects and the connection ends after
  // `delivered` events of the batch.
  datatype Step = Serve(call: Call) | Connect(principal: Principal, delivered: nat)

  function Receive(client: Client, batch: seq<Event>, delivered: nat): Client {
    var n := if delivered < |batch| then delivered else |batch|;
    if n == 0 then client else Client(client.received + batch[..n], batch[n - 1].id)
  }

  function ReceiveFrom(client: Client, response: Response, delivered: nat): Client {
    if response.Sse? then Receive(client, response.events, delivered) else client
  }

  function Stepped(t: Store, client: Client, runId: string, step: Step, number: string -> Option<int>): (Store, Client)
    requires t.runs.Keys == t.events.Keys
  {
    match step
    case Serve(call) => (Handle(t, call, number).0, client)
    case Connect(principal, delivered) =>
      (t, ReceiveFrom(client, HandleEvents(t, principal, runId, client.lastEventId, number), delivered))
  }

  lemma SteppedKeeps(t: Store, client: Client, runId: string, step: Step, number: string -> Option<int>)
    requires WellKept(t)
    ensures WellKept(Stepped(t, client, runId, step, number).0)
  {
    if step.Serve? { HandleKeeps(t, step.call, number); }
  }

  ghost function World(s: Store, runId: string, steps: seq<Step>, number: string -> Option<int>): (w: (Store, Client))
    requires WellKept(s)
    ensures WellKept(w.0)
  {
    if steps == [] then (s, NEW_CLIENT) else
      var (t, client) := World(s, runId, steps[..|steps| - 1], number);
      SteppedKeeps(t, client, runId, steps[|steps| - 1], number);
      Stepped(t, client, runId, steps[|steps| - 1], number)
  }

  // The client holds a prefix of the log and the id of its last event.
  predicate InStep(client: Client, log: seq<Event>) {
    && client.received <= log
    && client.lastEventId == if client.received == [] then "" else client.received[|client.received| - 1].id
  }

  lemma {:induction false} LaterIsRest(log: seq<Event>, from: nat, after: int)
    requires forall i :: 0 <= i < |log| ==> log[i].sequence == from + i
    requires from - 1 <= after
    ensures Later(log, after) == if after + 1 - from <= |log| then log[after + 1 - from..] else []
  {
    if log != [] {
      LaterIsRest(log[1..], from + 1, if after < from then from as int else after);
      if after >= from {
        assert after + 1 - from <= |log| ==> log[after + 1 - from..] == log[1..][after - from..];
      } else {
        LaterAll(log, after);
      }
    }
  }

  lemma {:induction false} LaterAll(log: seq<Event>, after: int)
    requires forall i :: 0 <= i < |log| ==> log[i].sequence > after
    ensures Later(log, after) == log
  {
    if log != [] { LaterAll(log[1..], after); }
  }

  // What a reconnecting client is sent: exactly what it lacks.
  lemma LastReceived(log: seq<Event>, client: Client, run: Run, number: string -> Option<int>)
    requires Agrees(run, log) && InStep(client, log) && client.received != []
    ensures ParseLastEventId(client.lastEventId, run.runId, number) == |client.received| - 1
  {
    var n := |client.received| - 1;
    assert client.received[n] == log[n];
    LastEventIdRoundTrip(run.runId, n, number);
  }

  lemma BatchIsRest(s: Store, runId: string, client: Client, number: string -> Option<int>)
    requires WellKept(s) && runId in s.runs && InStep(client, s.events[runId])
    ensures EventsFor(s, runId, ParseLastEventId(client.lastEventId, runId, number))
            == s.events[runId][|client.received|..]
  {
    var log := s.events[runId];
    assert Agrees(s.runs[runId], log) && s.runs[runId].runId == runId;
    if client.received != [] {
      LastReceived(log, client, s.runs[runId], number);
    }
    LaterIsRest(log, 0, |client.received| - 1);
  }

  lemma PrefixGrows(log: seq<Event>, received: seq<Event>, n: nat)
    requires received <= log && n <= |log| - |received|
    ensures received + log[|received|..][..n] == log[..|received| + n]
  {
  }

  lemma ReceiveInStep(client: Client, log: seq<Event>, delivered: nat)
    requires InStep(client, log)
    ensures InStep(Receive(client, log[|client.received|..], delivered), log)
    ensures delivered >= |log| ==> Receive(client, log[|client.received|..], delivered).received == log
  {
    var rest := |log| - |client.received|;
    PrefixGrows(log, client.received, if delivered < rest then delivered else rest);
  }

  // The log the client follows: empty until the run exists.
  function LogOf(s: Store, runId: string): seq<Event> {
    if runId in s.events then s.events[runId] else []
  }

  lemma ServeInStep(t: Store, call: Call, runId: string, client: Client, number: string -> Option<int>)
    requires WellKept(t) && InStep(client, LogOf(t, runId))
    ensures InStep(client, LogOf(Handle(t, call, number).0, runId))
  {
    HandleKeeps(t, call, number);
    var u := Handle(t, call, number).0;
    assert LogOf(t, runId) <= LogOf(u, runId);
  }

  // The whole log has arrived, if the last step was a connection that was accepted and not
  // broken off.
  predicate CaughtUp(t: Store, runId: string, client: Client, last: Step) {
    last.Connect? && last.delivered >= |LogOf(t, runId)| && FindAuthorizedRun(t, runId, last.principal).Some?
    ==> client.received == LogOf(t, runId)
  }

  lemma ConnectBatch(t: Store, client: Client, runId: string, principal: Principal, number: string -> Option<int>)
    requires WellKept(t) && InStep(client, LogOf(t, runId))
    ensures HandleEvents(t, principal, runId, client.lastEventId, number)
         == if FindAuthorizedRun(t, runId, principal) == None then Problem(404)
            else Sse(LogOf(t, runId)[|client.received|..])
  {
    if FindAuthorizedRun(t, runId, principal).Some? {
      BatchIsRest(t, runId, client, number);
    }
  }

  lemma ConnectInStep(t: Store, client: Client, runId: string, principal: Principal, delivered: nat,
          number: string -> Option<int>)
    requires WellKept(t) && InStep(client, LogOf(t, runId))
    ensures var next := ReceiveFrom(client, HandleEvents(t, principal, runId, client.lastEventId, number), delivered);
            InStep(next, LogOf(t, runId)) && CaughtUp(t, runId, next, Connect(principal, delivered))
  {
    ConnectBatch(t, client, runId, principal, number);
    ReceiveInStep(client, LogOf(t, runId), delivered);
  }

  lemma SteppedInStep(t: Store, client: Client, runId: string, step: Step, number: string -> Option<int>)
    requires WellKept(t) && InStep(client, LogOf(t, runId))
    ensures var (u, next) := Stepped(t, client, runId, step, number);
            InStep(next, LogOf(u, runId)) && CaughtUp(u, runId, next, step)
  {
    match step {
      case Serve(call) => ServeInStep(t, call, runId, client, number);
      case Connect(principal, delivered) => ConnectInStep(t, client, runId, principal, delivered, number);
    }
  }

  // For any interleaving of requests, connections and broken connections the client has
  // received a prefix of the log, without gap or repetition; and when a connection is
  // accepted and not broken off, all of it.
  lemma {:induction false} ResumeIsComplete(s: Store, runId: string, steps: seq<Step>, number: string -> Option<int>)
    requires WellKept(s)
    ensures var (t, client) := World(s, runId, steps, number);
            InStep(client, LogOf(t, runId)) && (steps != [] ==> CaughtUp(t, runId, client, steps[|steps| - 1]))
  {
    if steps != [] {
      var front, last := steps[..|steps| - 1], steps[|steps| - 1];
      ResumeIsComplete(s, runId, front, number);
      var (t, client) := World(s, runId, front, number);
      SteppedInStep(t, client, runId, last, number);
    } else {
      assert InStep(NEW_CLIENT, LogOf(s, runId));
    }
  }
}
