// Stream frames and tool targets: agent/src/core/agent-interaction-runtime.ts.
module AgentInteraction {
  import opened Sequences
  import opened Text

  datatype Error =
    | Required
    | IdentityMismatch
    | NotContiguous
    | BadLength
    | AlreadyTerminal

  // ---- Streams ----

  datatype FrameKind = Delta | Checkpoint | Terminal | Failed

  datatype Frame = Frame(streamId: string, sequence: int, kind: FrameKind, contentHash: string, byteLength: int)

  datatype StreamState = StreamState(streamId: string, lastSequence: int, bytes: int, terminal: bool)

  const MAX_SAFE_INTEGER := 9007199254740991

  predicate IsSafe(n: int) { -MAX_SAFE_INTEGER <= n <= MAX_SAFE_INTEGER }

  predicate Ends(frame: Frame) { frame.kind == Terminal || frame.kind == Failed }

  // `reduceStreamFrame`
  function Reduce(state: StreamState, frame: Frame): Result<StreamState, Error> {
    if TrimStart(state.streamId) == "" || TrimStart(frame.streamId) == "" || TrimStart(frame.contentHash) == "" then
      Err(Required)
    else if frame.streamId != state.streamId then Err(IdentityMismatch)
    else if !IsSafe(frame.sequence) || frame.sequence != state.lastSequence + 1 then Err(NotContiguous)
    else if frame.byteLength < 0 then Err(BadLength)
    else if state.terminal then Err(AlreadyTerminal)
    else Ok(StreamState(state.streamId, frame.sequence, state.bytes + frame.byteLength, Ends(frame)))
  }

  // A frame is accepted exactly when nothing is blank and it is the next frame of a stream that
  // has not ended; it then moves the stream on by itself.
  lemma FrameAccepted(state: StreamState, frame: Frame)
    ensures Reduce(state, frame).Ok? <==>
      && TrimStart(state.streamId) != "" && TrimStart(frame.contentHash) != ""
      && frame.streamId == state.streamId
      && frame.sequence == state.lastSequence + 1
      && -9007199254740991 <= frame.sequence <= 9007199254740991
      && frame.byteLength >= 0 && !state.terminal
    ensures Reduce(state, frame).Ok? ==>
      var next := Reduce(state, frame).value;
      && next.streamId == state.streamId && next.lastSequence == frame.sequence
      && next.bytes == state.bytes + frame.byteLength
      && (next.terminal <==> frame.kind in {Terminal, Failed})
  {
  }

  // The checks of a frame in order: whether each passes, and the error when it does not.
  function FrameChecks(state: StreamState, frame: Frame): seq<(bool, Error)> {
    [(TrimStart(state.streamId) != "" && TrimStart(frame.streamId) != "" && TrimStart(frame.contentHash) != "",
      Required),
     (state.streamId == frame.streamId, IdentityMismatch),
     (frame.sequence - state.lastSequence == 1 && -9007199254740991 <= frame.sequence <= 9007199254740991,
      NotContiguous),
     (frame.byteLength >= 0, BadLength),
     (!state.terminal, AlreadyTerminal)]
  }

  // The error is that of the first check that fails.
  lemma FrameRefused(state: StreamState, frame: Frame)
    ensures Reduce(state, frame).Err? ==>
      FirstFailure(FrameChecks(state, frame), Reduce(state, frame).error)
  {
    var checks := FrameChecks(state, frame);
    var i := if !checks[0].0 then 0 else if !checks[1].0 then 1 else if !checks[2].0 then 2
             else if !checks[3].0 then 3 else 4;
    assert Reduce(state, frame).Err? ==> FailsAt(checks, i, Reduce(state, frame).error);
  }

  // A receiver that keeps its state when a frame is refused; second, the frames accepted.
  function Receive(state: StreamState, frames: seq<Frame>): (StreamState, seq<Frame>) {
    if frames == [] then (state, []) else
      var (before, accepted) := Receive(state, frames[..|frames| - 1]);
      var frame := frames[|frames| - 1];
      match Reduce(before, frame)
      case Ok(next) => (next, accepted + [frame])
      case Err(_) => (before, accepted)
  }

  function TotalBytes(frames: seq<Frame>): int {
    if frames == [] then 0 else TotalBytes(frames[..|frames| - 1]) + frames[|frames| - 1].byteLength
  }

  // The accepted frames are numbered without gap or repetition, belong to the stream, add up
  // to the bytes counted, and none follows an ending frame or a stream that has ended.
  predicate Contiguous(state: StreamState, accepted: seq<Frame>, end: StreamState) {
    && (forall i :: 0 <= i < |accepted| ==> accepted[i].sequence == state.lastSequence + 1 + i)
    && (forall i :: 0 <= i < |accepted| ==> accepted[i].streamId == state.streamId && accepted[i].byteLength >= 0)
    && (forall i :: 0 <= i < |accepted| - 1 ==> !Ends(accepted[i]))
    && end.streamId == state.streamId
    && end.lastSequence == state.lastSequence + |accepted|
    && end.bytes == state.bytes + TotalBytes(accepted)
    && (state.terminal ==> accepted == [])
    && (end.terminal <==> if accepted == [] then state.terminal else Ends(accepted[|accepted| - 1]))
  }

  lemma AcceptOne(state: StreamState, accepted: seq<Frame>, before: StreamState, frame: Frame)
    requires Contiguous(state, accepted, before) && Reduce(before, frame).Ok?
    ensures Contiguous(state, accepted + [frame], Reduce(before, frame).value)
  {
    assert (accepted + [frame])[..|accepted|] == accepted;
  }

  // Whatever is sent in whatever order, what is accepted is contiguous.
  lemma {:induction false} StreamIsContiguous(state: StreamState, frames: seq<Frame>)
    ensures Contiguous(state, Receive(state, frames).1, Receive(state, frames).0)
  {
    if frames != [] {
      var front, frame := frames[..|frames| - 1], frames[|frames| - 1];
      StreamIsContiguous(state, front);
      var (before, accepted) := Receive(state, front);
      if Reduce(before, frame).Ok? {
        AcceptOne(state, accepted, before, frame);
      }
    }
  }

  // Frames sent in order: numbered on from the state, and ended by the last one at most.
  predicate InOrder(state: StreamState, frames: seq<Frame>) {
    && !state.terminal && TrimStart(state.streamId) != ""
    && (forall i :: 0 <= i < |frames| ==>
          && frames[i].streamId == state.streamId && TrimStart(frames[i].contentHash) != ""
          && frames[i].sequence == state.lastSequence + 1 + i && IsSafe(frames[i].sequence)
          && frames[i].byteLength >= 0)
    && (forall i :: 0 <= i < |frames| - 1 ==> !Ends(frames[i]))
  }

  // The next frame in order is accepted.
  lemma NextArrives(state: StreamState, front: seq<Frame>, frame: Frame, before: StreamState)
    requires InOrder(state, front + [frame]) && Contiguous(state, front, before)
    ensures Reduce(before, frame).Ok?
  {
    var frames, n := front + [frame], |front|;
    assert frames[n] == frame;
    if n > 0 {
      assert frames[n - 1] == front[n - 1];
    }
  }

  // Frames sent in order are all accepted.
  lemma {:induction false} InOrderArrives(state: StreamState, frames: seq<Frame>)
    requires InOrder(state, frames)
    ensures Receive(state, frames).1 == frames
  {
    if frames != [] {
      var front, frame := frames[..|frames| - 1], frames[|frames| - 1];
      assert frames == front + [frame];
      InOrderArrives(state, front);
      StreamIsContiguous(state, front);
      NextArrives(state, front, frame, Receive(state, front).0);
    }
  }

  // ---- Tool targets ----

  // `unsafeRelativePath`
  predicate Unsafe(path: string) {
    || "/" <= path
    || '\\' in path
    || exists i :: 0 <= i < |Split(path, '/')| && Split(path, '/')[i] in ["..", ""]
  }

  predicate Within(path: string, allowed: string) {
    path == allowed || allowed + "/" <= path
  }

  datatype Method = GET | POST | PUT | DELETE

  datatype Target =
    | File(organizationId: string, path: Option<string>, allowedPaths: seq<string>, sideEffect: bool, approved: bool)
    | Api(organizationId: string, host: Option<string>, method_: Option<Method>, allowedHosts: seq<string>,
          sideEffect: bool, approved: bool)

  datatype Reason = NotNormalized | OutsideAllowedPaths | BrowserLocalhost | HostNotAllowed | NoMethod | NeedsApproval

  predicate Missing(s: Option<string>) { s == None || s.value == "" }

  // `guardToolTarget`: the reasons against a target.
  function Guard(target: Target): Result<seq<Reason>, Error> {
    if TrimStart(target.organizationId) == "" then Err(Required)
    else
      var reasons :=
        match target
        case File(_, path, allowedPaths, _, _) =>
          (if Missing(path) || Unsafe(path.value) then [NotNormalized] else [])
          + (if Missing(path) || !(exists a :: a in allowedPaths && Within(path.value, a))
             then [OutsideAllowedPaths] else [])
        case Api(_, host, method_, allowedHosts, _, _) =>
          (if Missing(host) || host.value in ["localhost", "127.0.0.1"] then [BrowserLocalhost] else [])
          + (if Missing(host) || host.value !in allowedHosts then [HostNotAllowed] else [])
          + (if method_ == None then [NoMethod] else []);
      Ok(reasons + if target.sideEffect && !target.approved then [NeedsApproval] else [])
  }

  function Segments(path: string): seq<string> { Split(path, '/') }

  // Being within an allowed path is having its segments as first segments.
  lemma WithinIsPrefix(path: string, allowed: string)
    ensures Within(path, allowed) <==> Segments(allowed) <= Segments(path)
  {
    if allowed + "/" <= path {
      var rest := path[|allowed| + 1..];
      assert path == allowed + ['/'] + rest;
      SplitConcat(allowed, rest, '/');
    }
    if Segments(allowed) <= Segments(path) {
      var a, p := Segments(allowed), Segments(path);
      JoinSplit(allowed, '/');
      JoinSplit(path, '/');
      if |a| == |p| {
        assert a == p;
      } else {
        JoinConcat(a, p[|a|..]);
        assert p == a + p[|a|..];
      }
    }
  }

  lemma {:induction false} JoinConcat(a: seq<string>, b: seq<string>)
    requires a != [] && b != []
    ensures Join(a + b, '/') == Join(a, '/') + "/" + Join(b, '/')
  {
    if |a| > 1 {
      JoinConcat(a[1..], b);
      assert (a + b)[1..] == a[1..] + b;
    } else {
      assert (a + b)[1..] == b;
    }
  }

  // A file target is allowed exactly when its segments start with all the segments of some
  // allowed path and none of them is empty or climbs up.
  lemma FileTargetAllowed(target: Target, path: string)
    requires target.File? && TrimStart(target.organizationId) != "" && target.path == Some(path)
    ensures Guard(target) == Ok([]) <==>
      && (exists a :: a in target.allowedPaths && Segments(a) <= Segments(path))
      && (forall i :: 0 <= i < |Segments(path)| ==> Segments(path)[i] != "" && Segments(path)[i] != "..")
      && '\\' !in path
      && (target.sideEffect ==> target.approved)
  {
    forall a
      ensures Within(path, a) <==> Segments(a) <= Segments(path)
    {
      WithinIsPrefix(path, a);
    }
    FirstSegment(path);
  }

  // An API target is allowed exactly when its host is listed and is not the local one, a method
  // is named, and a side effect is approved.
  lemma ApiTargetAllowed(target: Target)
    requires target.Api? && TrimStart(target.organizationId) != ""
    ensures Guard(target) == Ok([]) <==>
      && target.host.Some? && target.host.value in target.allowedHosts
      && target.host.value !in ["", "localhost", "127.0.0.1"]
      && target.method_.Some?
      && (target.sideEffect ==> target.approved)
  {
    ApiReasonsMean(target);
    assert Guard(target).value != [] ==> Guard(target).value[0] in Guard(target).value;
  }

  // The reasons against an API target, each given exactly when what it says holds. A host that is
  // missing or empty counts as local and as not listed.
  lemma ApiReasonsMean(target: Target)
    requires target.Api?
    ensures Guard(target).Err? <==> TrimStart(target.organizationId) == ""
    ensures Guard(target).Ok? ==>
              var reasons := Guard(target).value;
              && (BrowserLocalhost in reasons <==>
                  target.host == None || target.host.value in ["", "localhost", "127.0.0.1"])
              && (HostNotAllowed in reasons <==>
                  target.host == None || target.host.value == "" || target.host.value !in target.allowedHosts)
              && (NoMethod in reasons <==> target.method_ == None)
              && (NeedsApproval in reasons <==> target.sideEffect && !target.approved)
  {
  }

  // The same for a file target, a path that is missing or empty being neither normal nor allowed.
  // Without an organization no target is looked at.
  lemma FileReasonsMean(target: Target)
    requires target.File?
    ensures Guard(target).Err? <==> TrimStart(target.organizationId) == ""
    ensures Guard(target).Ok? ==>
              var reasons, path := Guard(target).value, if target.path.Some? then target.path.value else "";
              && (OutsideAllowedPaths in reasons <==>
                  path == "" || forall a :: a in target.allowedPaths ==> !(Segments(a) <= Segments(path)))
              && (NotNormalized in reasons <==>
                  || path == "" || '\\' in path
                  || exists i :: 0 <= i < |Segments(path)| && Segments(path)[i] in ["", ".."])
              && (NeedsApproval in reasons <==> target.sideEffect && !target.approved)
  {
    var path := if target.path.Some? then target.path.value else "";
    forall a
      ensures Within(path, a) <==> Segments(a) <= Segments(path)
    {
      WithinIsPrefix(path, a);
    }
    FirstSegment(path);
  }

  lemma FirstSegment(path: string)
    ensures path == "" || "/" <= path ==> Segments(path)[0] == ""
  {
    if "/" <= path {
      assert path == "" + ['/'] + path[1..];
      SplitConcat("", path[1..], '/');
    }
  }
}
