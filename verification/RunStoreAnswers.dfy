// What each request to the API server gets and does, request by request: the create, cancel and
// read branches of `routeRequest` of agent/apps/api/server.ts with the idempotency keys of
// agent/src/core/idempotency.ts.
module RunStoreAnswers {
  import opened Sequences
  import opened Text
  import opened Decimal
  import opened RunStore

  // ---- Keys ----

  // 8 to 128 letters, digits, `_`, `-`, dots and colons.
  predicate IsKey(key: string) {
    8 <= |key| <= 128
    && forall i :: 0 <= i < |key| ==>
         || 'a' <= key[i] <= 'z' || 'A' <= key[i] <= 'Z' || '0' <= key[i] <= '9'
         || key[i] == '_' || key[i] == '-' || key[i] == '.' || key[i] == ':'
  }

  lemma ValidKeyMeans(key: string)
    ensures ValidKey(key) <==> IsKey(key)
  {
    if IsKey(key) {
      forall c | c in key
        ensures IsKeyChar(c)
      {
        var i :| 0 <= i < |key| && key[i] == c;
      }
    }
    if ValidKey(key) {
      assert forall i :: 0 <= i < |key| ==> key[i] in key && IsKeyChar(key[i]);
    }
  }

  // No request holds the key any more.
  predicate IsFree(keys: map<string, KeyEntry>, key: string, now: int) {
    key !in keys || keys[key].expiresAt <= now
  }

  // What a request with a key that is not free is answered: the recorded answer when the key was
  // used by the same organization for the same request, and else a conflict.
  predicate AnsweredByEntry(response: Response, entry: KeyEntry, organizationId: string, request: Request) {
    if entry.organizationId == organizationId && entry.request == request && entry.response.Some? then
      response == Answer(entry.response.value, true)
    else response == Problem(409)
  }

  // What a request past all other checks is answered when it does nothing.
  predicate AnsweredByKey(response: Response, keys: map<string, KeyEntry>, key: string, organizationId: string,
          request: Request)
  {
    if key == "" then response == Problem(400)
    else if !IsKey(key) || TrimStart(organizationId) == "" then response == Problem(500)
    else key in keys && AnsweredByEntry(response, keys[key], organizationId, request)
  }

  // A key that lets a request through.
  predicate LetsThrough(keys: map<string, KeyEntry>, key: string, organizationId: string, now: int) {
    IsKey(key) && TrimStart(organizationId) != "" && IsFree(keys, key, now)
  }

  lemma BeginMeans(keys: map<string, KeyEntry>, key: string, organizationId: string, request: Request, now: int)
    ensures BeginKey(keys, key, organizationId, request, now).New? <==> LetsThrough(keys, key, organizationId, now)
    ensures var begin := BeginKey(keys, key, organizationId, request, now);
            key != "" && !begin.New? ==> AnsweredByKey(ByKey(begin), keys, key, organizationId, request)
  {
    ValidKeyMeans(key);
  }

  // ---- Creating a run ----

  predicate MayCreate(call: Call)
    requires call.Create?
  {
    && call.permitted
    && (call.principal.projectId == "" || call.principal.projectId == call.projectId)
    && call.body.Good?
  }

  // A create request changes the store exactly when the caller is permitted and stays in its
  // project, the body is good, and the key is valid and free or expired.
  lemma CreateChanges(s: Store, call: Call)
    requires call.Create?
    ensures HandleCreate(s, call).0 != s
       <==> MayCreate(call) && LetsThrough(s.keys, call.key, call.principal.organizationId, call.now)
  {
    if call.body.Good? {
      BeginMeans(s.keys, call.key, call.principal.organizationId, CreateRequest(call.projectId, call.body.input),
                 call.now);
      ValidKeyMeans(call.key);
    }
  }

  // What is answered when nothing is created.
  lemma CreateRefused(s: Store, call: Call)
    requires call.Create? && HandleCreate(s, call).0 == s
    ensures var response := HandleCreate(s, call).1;
            if !call.permitted then response == Problem(403)
            else if !(call.principal.projectId == "" || call.principal.projectId == call.projectId) then
              response == Problem(404)
            else if call.body.Bad? then response == Problem(call.body.status)
            else AnsweredByKey(response, s.keys, call.key, call.principal.organizationId,
                               CreateRequest(call.projectId, call.body.input))
  {
    CreateChanges(s, call);
    if call.body.Good? {
      BeginMeans(s.keys, call.key, call.principal.organizationId, CreateRequest(call.projectId, call.body.input),
                 call.now);
    }
  }

  function Given(text: Option<string>, otherwise: string): string {
    if text.Some? then text.value else otherwise
  }

  lemma PrintZero()
    ensures Print(0) == "0"
  {
  }

  // The run that is created, its first event, and the recorded answer: private and supervised
  // unless the input says otherwise, and for a day under the key.
  lemma CreatedRun(s: Store, call: Call)
    requires call.Create? && HandleCreate(s, call).0 != s
    ensures call.body.Good?
    ensures var (t, response) := HandleCreate(s, call);
            var input, who := call.body.input, call.principal;
            var id := "run_" + Print(s.runCounter + 1) + "_" + call.suffix;
            var privacy := Given(input.privacyLevel, "private");
            var run := Run(id, who.organizationId, call.projectId, who.userId, input.request, input.computeMode,
                           privacy, Given(input.autonomyLevel, "supervised"), Intake, call.now, call.now);
            var event := Event(id + ":" + "0", 0, RunCreated, id, who.organizationId, who.userId, call.now,
                               [("computeMode", input.computeMode), ("privacyLevel", privacy)]);
            var stored := Stored(201, run, event);
            && response == Answer(stored, false)
            && t.runs == s.runs[id := run] && t.events == s.events[id := [event]] && t.runCounter == s.runCounter + 1
            && t.keys == s.keys[call.key := KeyEntry(who.organizationId, CreateRequest(call.projectId, input),
                                                     call.now + 86400000, Some(stored))]
  {
    PrintZero();
  }

  // ---- Cancelling a run ----

  // A run of the caller's organization, and of its project if it has one.
  predicate Visible(s: Store, runId: string, principal: Principal) {
    && runId in s.runs
    && s.runs[runId].organizationId == principal.organizationId
    && (principal.projectId == "" || principal.projectId == s.runs[runId].projectId)
  }

  lemma VisibleMeans(s: Store, runId: string, principal: Principal)
    ensures FindAuthorizedRun(s, runId, principal)
         == if Visible(s, runId, principal) then Some(s.runs[runId]) else None
  {
  }

  // A cancel request changes the store exactly when the run is visible to the caller, the caller
  // is permitted, and the key is valid and free or expired.
  lemma CancelChanges(s: Store, call: Call)
    requires call.Cancel? && s.runs.Keys == s.events.Keys
    ensures HandleCancel(s, call).0 != s
       <==> Visible(s, call.runId, call.principal) && call.permitted
            && LetsThrough(s.keys, call.key, call.principal.organizationId, call.now)
  {
    VisibleMeans(s, call.runId, call.principal);
    BeginMeans(s.keys, call.key, call.principal.organizationId, CancelRequest(call.runId), call.now);
    ValidKeyMeans(call.key);
    if HandleCancel(s, call).1.Answer? && !HandleCancel(s, call).1.replayed {
      CancelledLonger(s, call);
    }
  }

  lemma CancelledLonger(s: Store, call: Call)
    requires call.Cancel? && call.runId in s.runs && call.runId in s.events
    ensures CancelRun(s, call).0 != s
  {
    var t := CancelRun(s, call).0;
    assert |t.events[call.runId]| == |s.events[call.runId]| + 1;
  }

  // What is answered when nothing is cancelled.
  lemma CancelRefused(s: Store, call: Call)
    requires call.Cancel? && s.runs.Keys == s.events.Keys && HandleCancel(s, call).0 == s
    ensures var response := HandleCancel(s, call).1;
            if !Visible(s, call.runId, call.principal) then response == Problem(404)
            else if !call.permitted then response == Problem(403)
            else AnsweredByKey(response, s.keys, call.key, call.principal.organizationId, CancelRequest(call.runId))
  {
    CancelChanges(s, call);
    VisibleMeans(s, call.runId, call.principal);
    BeginMeans(s.keys, call.key, call.principal.organizationId, CancelRequest(call.runId), call.now);
  }

  // The cancelled run, the event at the end of its log, and the recorded answer. A run that is
  // done or has failed keeps its state.
  lemma CancelledRun(s: Store, call: Call)
    requires call.Cancel? && s.runs.Keys == s.events.Keys && HandleCancel(s, call).0 != s
    requires call.runId in s.runs ==> s.runs[call.runId].runId == call.runId
    ensures call.runId in s.runs
    ensures var (t, response) := HandleCancel(s, call);
            var id, who, was, log := call.runId, call.principal, s.runs[call.runId], s.events[call.runId];
            var state := if was.state in {Done, Failed} then was.state else Cancelled;
            var run := was.(state := state, updatedAt := call.now);
            var event := Event(id + ":" + Print(|log|), |log|, RunCancelled, id, was.organizationId, who.userId,
                               call.now, []);
            var stored := Stored(200, run, event);
            && response == Answer(stored, false)
            && t.runs == s.runs[id := run] && t.events == s.events[id := log + [event]] && t.runCounter == s.runCounter
            && t.keys == s.keys[call.key := KeyEntry(who.organizationId, CancelRequest(id), call.now + 86400000,
                                                     Some(stored))]
  {
    CancelChanges(s, call);
    VisibleMeans(s, call.runId, call.principal);
  }

  // ---- Reading ----

  // A visible run is shown as it is, and no other.
  lemma ShownRun(s: Store, principal: Principal, runId: string)
    ensures HandleGet(s, principal, runId)
         == if Visible(s, runId, principal) then Detail(s.runs[runId]) else Problem(404)
  {
    VisibleMeans(s, runId, principal);
  }

  lemma {:induction false} LaterMeans(events: seq<Event>, after: int)
    ensures Later(events, after) == Filter((e: Event) => e.sequence > after, events)
  {
    if events != [] { LaterMeans(events[1..], after); }
  }

  // So are the events of its log behind the one whose id the client sends: from the beginning
  // when that is no id of the run.
  lemma ShownEvents(s: Store, principal: Principal, runId: string, last: string, number: string -> Option<int>)
    requires s.runs.Keys == s.events.Keys
    ensures var response := HandleEvents(s, principal, runId, last, number);
      && (!Visible(s, runId, principal) ==> response == Problem(404))
      && (Visible(s, runId, principal) && !(runId + ":" <= last) ==>
            response == Sse(Filter((e: Event) => e.sequence > -1, s.events[runId])))
      && (forall n: nat :: Visible(s, runId, principal) && last == runId + ":" + Print(n) ==>
            response == Sse(Filter((e: Event) => e.sequence > n, s.events[runId])))
  {
    VisibleMeans(s, runId, principal);
    if Visible(s, runId, principal) {
      LaterMeans(s.events[runId], ParseLastEventId(last, runId, number));
      forall n: nat | last == runId + ":" + Print(n)
        ensures ParseLastEventId(last, runId, number) == n
      {
        assert last[|runId + ":"|..] == Print(n);
        ValueOfPrint(n);
      }
    }
  }

  lemma ParsedBehind(runId: string, text: string, number: string -> Option<int>)
    ensures var after := ParseLastEventId(runId + ":" + text, runId, number);
            if text == "" then after == 0
            else if forall i :: 0 <= i < |text| ==> '0' <= text[i] <= '9' then AllDigits(text) && after == Value(text)
            else after == if number(text).Some? && number(text).value >= 0 then number(text).value else -1
  {
    assert (runId + ":" + text)[|runId + ":"|..] == text;
  }

  // What else may follow the id of the run: any digits count as the number they are, nothing as
  // zero, and another text as the number it converts to, unless that is negative.
  lemma ShownBehind(s: Store, principal: Principal, runId: string, text: string, number: string -> Option<int>,
                    after: int)
    requires s.runs.Keys == s.events.Keys && Visible(s, runId, principal)
    requires if text == "" then after == 0
             else if forall i :: 0 <= i < |text| ==> '0' <= text[i] <= '9' then AllDigits(text) && after == Value(text)
             else after == if number(text).Some? && number(text).value >= 0 then number(text).value else -1
    ensures HandleEvents(s, principal, runId, runId + ":" + text, number)
         == Sse(Filter((e: Event) => e.sequence > after, s.events[runId]))
  {
    VisibleMeans(s, runId, principal);
    ParsedBehind(runId, text, number);
    LaterMeans(s.events[runId], after);
  }

  // Reading changes nothing.
  lemma ReadingChangesNothing(s: Store, call: Call, number: string -> Option<int>)
    requires s.runs.Keys == s.events.Keys && (call.GetRun? || call.GetEvents?)
    ensures Handle(s, call, number).0 == s
    ensures Handle(s, call, number).1
         == if call.GetRun? then HandleGet(s, call.principal, call.runId)
            else HandleEvents(s, call.principal, call.runId, call.lastEventId, number)
  {
  }
}
