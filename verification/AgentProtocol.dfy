// Message validity and the replay window of agent/src/core/agent-protocol.ts.
module AgentProtocol {
  import opened Sequences
  import opened Text

  datatype Message = Message(
    messageId: string, protocol: string, organizationId: string, senderAgentId: string, recipientAgentId: string,
    capability: string, scope: string, nonce: string, issuedAt: real, expiresAt: real,
    payloadHash: string, signature: string)
  {
    function Fields(): seq<string> {
      [messageId, organizationId, senderAgentId, recipientAgentId, capability, scope, nonce, payloadHash, signature]
    }
  }

  datatype Policy = Policy(
    organizationId: string, allowedProtocols: seq<string>, allowedCapabilities: seq<string>,
    allowedScopes: seq<string>, deniedCapabilities: seq<string>, maxTtlMs: real, trustedSenders: seq<string>)

  datatype Reason =
    | FieldRequired(field: nat)
    | TenantMismatch
    | ProtocolNotAllowed
    | InvalidTimestamps
    | TtlTooLong
    | OutsideWindow
    | CapabilityNotAllowed
    | ScopeNotAllowed
    | SenderNotTrusted
    | SenderIsRecipient
    | BadSignature

  // The position of the first blank field.
  function FirstBlank(fields: seq<string>): (i: nat)
    ensures i <= |fields|
    ensures forall k :: 0 <= k < i ==> TrimStart(fields[k]) != ""
    ensures i < |fields| ==> TrimStart(fields[i]) == ""
  {
    if fields == [] || TrimStart(fields[0]) == "" then 0 else 1 + FirstBlank(fields[1..])
  }

  // The first check that fails, in the order of `validateAgentMessage`.
  function Validate(m: Message, policy: Policy, now: real): Option<Reason> {
    var blank := FirstBlank(m.Fields());
    if blank < |m.Fields()| then Some(FieldRequired(blank))
    else if m.organizationId != policy.organizationId then Some(TenantMismatch)
    else if m.protocol !in policy.allowedProtocols then Some(ProtocolNotAllowed)
    else if m.expiresAt <= m.issuedAt then Some(InvalidTimestamps)
    else if m.expiresAt - m.issuedAt > policy.maxTtlMs then Some(TtlTooLong)
    else if now < m.issuedAt || now >= m.expiresAt then Some(OutsideWindow)
    else if m.capability !in policy.allowedCapabilities || m.capability in policy.deniedCapabilities then
      Some(CapabilityNotAllowed)
    else if m.scope !in policy.allowedScopes then Some(ScopeNotAllowed)
    else if m.senderAgentId !in policy.trustedSenders then Some(SenderNotTrusted)
    else if m.senderAgentId == m.recipientAgentId then Some(SenderIsRecipient)
    else None
  }

  // The reasons against a message; `signed` is the verifier's answer, None when it throws.
  function Decide(m: Message, policy: Policy, now: real, signed: Option<bool>): seq<Reason> {
    (if Validate(m, policy, now).Some? then [Validate(m, policy, now).value] else [])
    + (if signed == Some(true) then [] else [BadSignature])
  }

  predicate Allowed(m: Message, policy: Policy, now: real, signed: Option<bool>) {
    Decide(m, policy, now, signed) == []
  }

  // What an allowed message has been checked for.
  lemma AllowedMeans(m: Message, policy: Policy, now: real, signed: Option<bool>)
    ensures Allowed(m, policy, now, signed) <==>
      && (forall i :: 0 <= i < |m.Fields()| ==> TrimStart(m.Fields()[i]) != "")
      && m.organizationId == policy.organizationId && m.protocol in policy.allowedProtocols
      && m.issuedAt <= now < m.expiresAt && m.expiresAt - m.issuedAt <= policy.maxTtlMs
      && m.capability in policy.allowedCapabilities && m.capability !in policy.deniedCapabilities
      && m.scope in policy.allowedScopes
      && m.senderAgentId in policy.trustedSenders && m.senderAgentId != m.recipientAgentId
      && signed == Some(true)
  {
    var blank := FirstBlank(m.Fields());
  }

  // The checks of a message in order: whether each passes, and the reason when it does not.
  function Checks(m: Message, policy: Policy, now: real): seq<(bool, Reason)> {
    FieldChecks(m) + PolicyChecks(m, policy, now)
  }

  function FieldChecks(m: Message): (checks: seq<(bool, Reason)>)
    ensures |checks| == 9
  {
    [(TrimStart(m.messageId) != "", FieldRequired(0)),
     (TrimStart(m.organizationId) != "", FieldRequired(1)),
     (TrimStart(m.senderAgentId) != "", FieldRequired(2)),
     (TrimStart(m.recipientAgentId) != "", FieldRequired(3)),
     (TrimStart(m.capability) != "", FieldRequired(4)),
     (TrimStart(m.scope) != "", FieldRequired(5)),
     (TrimStart(m.nonce) != "", FieldRequired(6)),
     (TrimStart(m.payloadHash) != "", FieldRequired(7)),
     (TrimStart(m.signature) != "", FieldRequired(8))]
  }

  function PolicyChecks(m: Message, policy: Policy, now: real): (checks: seq<(bool, Reason)>)
    ensures |checks| == 9
  {
    [(m.organizationId == policy.organizationId, TenantMismatch),
     (m.protocol in policy.allowedProtocols, ProtocolNotAllowed),
     (m.issuedAt < m.expiresAt, InvalidTimestamps),
     (m.expiresAt <= m.issuedAt + policy.maxTtlMs, TtlTooLong),
     (m.issuedAt <= now < m.expiresAt, OutsideWindow),
     (m.capability in policy.allowedCapabilities && m.capability !in policy.deniedCapabilities, CapabilityNotAllowed),
     (m.scope in policy.allowedScopes, ScopeNotAllowed),
     (m.senderAgentId in policy.trustedSenders, SenderNotTrusted),
     (m.senderAgentId != m.recipientAgentId, SenderIsRecipient)]
  }

  lemma FieldChecksAre(m: Message)
    ensures forall k :: 0 <= k < 9 ==> FieldChecks(m)[k] == (TrimStart(m.Fields()[k]) != "", FieldRequired(k))
  {
  }

  lemma PolicyFirst(m: Message, policy: Policy, now: real)
    requires FirstBlank(m.Fields()) == 9
    ensures Validate(m, policy, now).Some? ==>
              FirstFailure(PolicyChecks(m, policy, now), Validate(m, policy, now).value)
  {
    var c := PolicyChecks(m, policy, now);
    var i := if !c[0].0 then 0 else if !c[1].0 then 1 else if !c[2].0 then 2 else if !c[3].0 then 3
             else if !c[4].0 then 4 else if !c[5].0 then 5 else if !c[6].0 then 6 else if !c[7].0 then 7 else 8;
    assert Validate(m, policy, now).Some? ==> FailsAt(c, i, Validate(m, policy, now).value);
  }

  lemma FailsLater<R>(a: seq<(bool, R)>, b: seq<(bool, R)>, reason: R)
    requires FirstFailure(b, reason) && forall k :: 0 <= k < |a| ==> a[k].0
    ensures FirstFailure(a + b, reason)
  {
    var i :| FailsAt(b, i, reason);
    assert FailsAt(a + b, |a| + i, reason);
  }

  // The reason given is that of the first check that fails.
  lemma ReasonIsFirst(m: Message, policy: Policy, now: real)
    ensures Validate(m, policy, now).Some? ==>
              FirstFailure(Checks(m, policy, now), Validate(m, policy, now).value)
  {
    var blank := FirstBlank(m.Fields());
    FieldChecksAre(m);
    if blank < 9 {
      assert FailsAt(Checks(m, policy, now), blank, FieldRequired(blank));
    } else if Validate(m, policy, now).Some? {
      PolicyFirst(m, policy, now);
      FailsLater(FieldChecks(m), PolicyChecks(m, policy, now), Validate(m, policy, now).value);
    }
  }

  // The reasons against a message: that of the first check that fails, then a signature that the
  // verifier does not confirm.
  lemma ReasonsMean(m: Message, policy: Policy, now: real, signed: Option<bool>)
    ensures BadSignature in Decide(m, policy, now, signed) <==> signed != Some(true)
    ensures forall r :: r in Decide(m, policy, now, signed) && r != BadSignature ==>
              FirstFailure(Checks(m, policy, now), r) && Decide(m, policy, now, signed)[0] == r
  {
    ReasonIsFirst(m, policy, now);
  }

  // ---- The replay window ----

  type Seen = map<string, real>

  function Key(m: Message): string { m.senderAgentId + ":" + m.nonce }

  predicate Accepts(seen: Seen, m: Message, now: real) {
    !(Key(m) in seen && seen[Key(m)] >= now)
  }

  function Purged(seen: Seen, now: real): Seen {
    map k | k in seen && seen[k] > now :: seen[k]
  }

  function SeenNext(seen: Seen, m: Message, now: real): Seen {
    if Accepts(seen, m, now) then Purged(seen[Key(m) := m.expiresAt], now) else seen
  }

  class ReplayWindow {
    var seen: Seen

    constructor ()
      ensures seen == map[]
    {
      seen := map[];
    }

    // After a success only entries that have not expired are kept.
    method Accept(message: Message, now: real) returns (ok: bool)
      modifies this
      ensures ok == Accepts(old(seen), message, now)
      ensures seen == SeenNext(old(seen), message, now)
      ensures ok ==> forall k :: k in seen ==> seen[k] > now
    {
      var key := Key(message);
      if key in seen && seen[key] >= now {
        return false;
      }
      seen := seen[key := message.expiresAt];
      ghost var all := seen;
      var keys := seen.Keys;
      while keys != {}
        invariant keys <= all.Keys
        invariant seen == map k | k in all && (k in keys || all[k] > now) :: all[k]
        decreases keys
      {
        var seenKey :| seenKey in keys;
        if seen[seenKey] <= now {
          seen := seen - {seenKey};
        }
        keys := keys - {seenKey};
      }
      assert seen == Purged(all, now);
      return true;
    }
  }

  // ---- Runs of a gateway ----

  // One message at one time. The gateway asks the window for every message it finds valid,
  // and possibly for others.
  datatype Attempt = Attempt(message: Message, now: real, policy: Policy, signed: Option<bool>, asks: bool)

  predicate Valid(a: Attempt) { Allowed(a.message, a.policy, a.now, a.signed) }

  predicate Asked(a: Attempt) { Valid(a) || a.asks }

  lemma ValidInTime(a: Attempt)
    requires Valid(a)
    ensures a.message.issuedAt <= a.now < a.message.expiresAt
  {
    AllowedMeans(a.message, a.policy, a.now, a.signed);
  }

  // What the window holds after the first n attempts, those that it is asked about.
  function SeenWith(asked: Attempt -> bool, run: seq<Attempt>, n: nat): Seen
    requires n <= |run|
  {
    if n == 0 then map[] else
      var before, last := SeenWith(asked, run, n - 1), run[n - 1];
      if asked(last) then SeenNext(before, last.message, last.now) else before
  }

  function SeenAfter(run: seq<Attempt>, n: nat): Seen
    requires n <= |run|
  {
    SeenWith(Asked, run, n)
  }

  predicate Admitted(run: seq<Attempt>, i: nat)
    requires i < |run|
  {
    Valid(run[i]) && Accepts(SeenAfter(run, i), run[i].message, run[i].now)
  }

  predicate ClockRuns(run: seq<Attempt>) {
    forall i, j :: 0 <= i <= j < |run| ==> run[i].now <= run[j].now
  }

  lemma SeenKeeps(seen: Seen, m: Message, now: real, key: string)
    requires key in seen && seen[key] > now
    ensures key in SeenNext(seen, m, now) && SeenNext(seen, m, now)[key] == seen[key]
  {
  }

  // An entry of the window stays as long as no attempt comes at or after its time.
  lemma {:induction false} Remembered(asked: Attempt -> bool, run: seq<Attempt>, i: nat, k: nat, key: string)
    requires i < k <= |run| && key in SeenWith(asked, run, i + 1)
    requires forall m :: i < m < k ==> run[m].now < SeenWith(asked, run, i + 1)[key]
    ensures key in SeenWith(asked, run, k) && SeenWith(asked, run, k)[key] == SeenWith(asked, run, i + 1)[key]
    decreases k
  {
    if i + 1 < k {
      Remembered(asked, run, i, k - 1, key);
      SeenKeeps(SeenWith(asked, run, k - 1), run[k - 1].message, run[k - 1].now, key);
    }
  }

  // Whatever the clock does, a sender and nonce are admitted again only after some attempt at
  // or after the expiry of the first admitted message.
  lemma AdmittedAgain(run: seq<Attempt>, i: nat, j: nat)
    requires i < j < |run| && Admitted(run, i) && Admitted(run, j)
    requires run[i].message.senderAgentId == run[j].message.senderAgentId
    requires run[i].message.nonce == run[j].message.nonce
    ensures exists k :: i < k <= j && run[k].now >= run[i].message.expiresAt
  {
    if forall k :: i < k <= j ==> run[k].now < run[i].message.expiresAt {
      ValidInTime(run[i]);
      Remembered(Asked, run, i, j, Key(run[i].message));
    }
  }

  // With a clock that does not run back, that is after the first message has expired.
  lemma AdmittedOncePerNonce(run: seq<Attempt>, i: nat, j: nat)
    requires ClockRuns(run) && i < j < |run|
    requires Admitted(run, i) && Admitted(run, j)
    requires run[i].message.senderAgentId == run[j].message.senderAgentId
    requires run[i].message.nonce == run[j].message.nonce
    ensures run[j].now >= run[i].message.expiresAt
  {
    AdmittedAgain(run, i, j);
  }

  // ---- Which clocks are safe ----

  function Times(run: seq<Attempt>): (times: seq<real>)
    ensures |times| == |run|
  {
    seq(|run|, i requires 0 <= i < |run| => run[i].now)
  }

  // A reading later than one before it and than one after it.
  predicate Peak(times: seq<real>, a: int, b: int, c: int) {
    0 <= a < b < c < |times| && times[a] < times[b] && times[c] < times[b]
  }

  ghost predicate HasPeak(times: seq<real>) { exists a, b, c :: Peak(times, a, b, c) }

  ghost predicate AdmittedTwice(run: seq<Attempt>) {
    exists i, j :: 0 <= i < j < |run| && run[i].message == run[j].message && Admitted(run, i) && Admitted(run, j)
  }

  lemma PeakBetween(run: seq<Attempt>, i: nat, k: nat, j: nat)
    requires i < k <= j < |run| && run[i].message == run[j].message && Valid(run[i]) && Valid(run[j])
    requires run[k].now >= run[i].message.expiresAt
    ensures HasPeak(Times(run))
  {
    ValidInTime(run[i]);
    ValidInTime(run[j]);
    assert Peak(Times(run), i, k, j);
  }

  lemma TwiceHasPeak(run: seq<Attempt>, i: nat, j: nat)
    requires i < j < |run| && run[i].message == run[j].message && Admitted(run, i) && Admitted(run, j)
    ensures HasPeak(Times(run))
  {
    AdmittedAgain(run, i, j);
    var k :| i < k <= j && run[k].now >= run[i].message.expiresAt;
    PeakBetween(run, i, k, j);
  }

  // A clock without peak never admits the same message twice.
  lemma AdmittedOnce(run: seq<Attempt>)
    requires !HasPeak(Times(run))
    ensures !AdmittedTwice(run)
  {
    if AdmittedTwice(run) {
      var i, j :| 0 <= i < j < |run| && run[i].message == run[j].message && Admitted(run, i) && Admitted(run, j);
      TwiceHasPeak(run, i, j);
    }
  }

  function MessageWith(sender: string, nonce: string, issuedAt: real, expiresAt: real): Message {
    Message("m", "mcp", "o", sender, "r", "c", "p", nonce, issuedAt, expiresAt, "h", "g")
  }

  function PolicyFor(sender: string, ttl: real): Policy { Policy("o", ["mcp"], ["c"], ["p"], [], ttl, [sender]) }

  // A signed message at a time in its window.
  function Signed(sender: string, nonce: string, issuedAt: real, now: real, expiresAt: real): Attempt {
    Attempt(MessageWith(sender, nonce, issuedAt, expiresAt), now, PolicyFor(sender, expiresAt - issuedAt), Some(true),
            false)
  }

  function Unsigned(now: real): Attempt {
    Attempt(MessageWith("s", "n", now, now), now, PolicyFor("s", 0.0), None, false)
  }

  // A message sent at the readings a and c, another one at the reading b, when the first has
  // expired, and messages that nobody signed at all the others.
  function Replay(times: seq<real>, a: nat, b: nat, c: nat): (run: seq<Attempt>)
    requires Peak(times, a, b, c)
    ensures |run| == |times|
  {
    var from := if times[a] < times[c] then times[a] else times[c];
    seq(|times|, i requires 0 <= i < |times| =>
      if i == a || i == c then Signed("s", "n", from, times[i], times[b])
      else if i == b then Signed("s", "x", times[i], times[i], times[i] + 1.0)
      else Unsigned(times[i]))
  }

  lemma ReplayTimes(times: seq<real>, a: nat, b: nat, c: nat)
    requires Peak(times, a, b, c)
    ensures Times(Replay(times, a, b, c)) == times
  {
  }

  // Attempts that nobody asks the window about leave it as it is.
  lemma {:induction false} SeenStays(asked: Attempt -> bool, run: seq<Attempt>, i: nat, k: nat)
    requires i <= k <= |run| && forall m :: i <= m < k ==> !asked(run[m])
    ensures SeenWith(asked, run, k) == SeenWith(asked, run, i)
    decreases k
  {
    if i < k { SeenStays(asked, run, i, k - 1); }
  }

  lemma {:induction false} NeverAsked(asked: Attempt -> bool, run: seq<Attempt>, n: nat, key: string)
    requires n <= |run| && forall i :: 0 <= i < n && asked(run[i]) ==> Key(run[i].message) != key
    ensures key !in SeenWith(asked, run, n)
    decreases n
  {
    if n > 0 { NeverAsked(asked, run, n - 1, key); }
  }

  // A valid message is admitted when nothing with its key was asked for before.
  lemma FirstKeyAdmitted(run: seq<Attempt>, j: nat)
    requires j < |run| && Valid(run[j])
    requires forall i :: 0 <= i < j && Asked(run[i]) ==> Key(run[i].message) != Key(run[j].message)
    ensures Admitted(run, j)
  {
    NeverAsked(Asked, run, j, Key(run[j].message));
  }

  predicate SameSource(a: Message, b: Message) { a.senderAgentId == b.senderAgentId && a.nonce == b.nonce }

  // Messages of senders without a colon have one key exactly when sender and nonce are the same.
  lemma KeyMeans(a: Message, b: Message)
    requires ':' !in a.senderAgentId && ':' !in b.senderAgentId
    ensures Key(a) == Key(b) <==> SameSource(a, b)
  {
    if Key(a) == Key(b) {
      ColonFirst(a.senderAgentId, a.nonce, b.senderAgentId, b.nonce);
    }
  }

  lemma ColonFirst(s: string, n: string, t: string, o: string)
    requires ':' !in s && ':' !in t && s + ":" + n == t + ":" + o
    ensures s == t && n == o
  {
    var key := s + ":" + n;
    IndexOfFirst(s, ':', n);
    IndexOfFirst(t, ':', o);
    assert key[..|s|] == s && key[|s| + 1..] == n && key[..|t|] == t && key[|t| + 1..] == o;
  }

  // Among senders without a colon, a valid message is admitted when nothing with its sender and
  // nonce was asked for before.
  lemma FirstUseAdmitted(run: seq<Attempt>, j: nat)
    requires j < |run| && Valid(run[j])
    requires forall i :: 0 <= i <= j && Asked(run[i]) ==> ':' !in run[i].message.senderAgentId
    requires forall i :: 0 <= i < j && Asked(run[i]) ==> !SameSource(run[i].message, run[j].message)
    ensures Admitted(run, j)
  {
    forall i | 0 <= i < j && Asked(run[i])
      ensures Key(run[i].message) != Key(run[j].message)
    {
      KeyMeans(run[i].message, run[j].message);
    }
    FirstKeyAdmitted(run, j);
  }

  // Purging at its expiry forgets a message, whatever else is asked for.
  lemma Forgets(m: Message, other: Message, first: real, peak: real)
    requires first < peak == m.expiresAt && Key(m) != Key(other)
    ensures var seen := SeenNext(map[], m, first);
            seen == map[Key(m) := peak] && Key(m) !in SeenNext(seen, other, peak)
  {
  }

  lemma FieldsGiven(m: Message, sender: string, nonce: string)
    requires m.Fields() == ["m", "o", sender, "r", "c", "p", nonce, "h", "g"]
    requires TrimStart(sender) != "" && TrimStart(nonce) != ""
    ensures forall i :: 0 <= i < |m.Fields()| ==> TrimStart(m.Fields()[i]) != ""
  {
  }

  lemma SignedIsValid(sender: string, nonce: string, issuedAt: real, now: real, expiresAt: real)
    requires TrimStart(sender) != "" && TrimStart(nonce) != "" && issuedAt <= now < expiresAt && sender[0] != 'r'
    ensures Valid(Signed(sender, nonce, issuedAt, now, expiresAt))
  {
    var m := MessageWith(sender, nonce, issuedAt, expiresAt);
    FieldsGiven(m, sender, nonce);
    assert "r"[0] == 'r';
    AllowedMeans(m, PolicyFor(sender, expiresAt - issuedAt), now, Some(true));
  }

  lemma UnsignedIsNot(now: real)
    ensures !Asked(Unsigned(now))
  {
    var a := Unsigned(now);
    AllowedMeans(a.message, a.policy, a.now, a.signed);
  }

  lemma NoncesDiffer(n: string, x: string, s: string)
    requires n == "n" && x == "x" && s == "s"
    ensures s + ":" + n != s + ":" + x && TrimStart(n) != "" && TrimStart(x) != "" && TrimStart(s) != "" && s[0] != 'r'
  {
    assert (s + ":" + n)[2] != (s + ":" + x)[2];
  }

  lemma SignedAreValid(first: real, peak: real, last: real, issuedAt: real)
    requires issuedAt <= first < peak && issuedAt <= last < peak
    ensures Valid(Signed("s", "n", issuedAt, first, peak)) && Valid(Signed("s", "n", issuedAt, last, peak))
    ensures Valid(Signed("s", "x", peak, peak, peak + 1.0))
    ensures Key(MessageWith("s", "n", issuedAt, peak)) != Key(MessageWith("s", "x", peak, peak + 1.0))
  {
    NoncesDiffer("n", "x", "s");
    SignedIsValid("s", "n", issuedAt, first, peak);
    SignedIsValid("s", "n", issuedAt, last, peak);
    SignedIsValid("s", "x", peak, peak, peak + 1.0);
  }

  lemma ReplayValid(times: seq<real>, a: nat, b: nat, c: nat)
    requires Peak(times, a, b, c)
    ensures var run := Replay(times, a, b, c);
      && Valid(run[a]) && Valid(run[b]) && Valid(run[c]) && run[a].message == run[c].message
      && (forall i :: 0 <= i < |run| && i != a && i != b && i != c ==> !Asked(run[i]))
      && run[a].message.expiresAt == times[b] && Key(run[a].message) != Key(run[b].message)
  {
    var run := Replay(times, a, b, c);
    SignedAreValid(times[a], times[b], times[c], if times[a] < times[c] then times[a] else times[c]);
    forall i | 0 <= i < |run| && i != a && i != b && i != c
      ensures !Asked(run[i])
    {
      assert run[i] == Unsigned(times[i]);
      UnsignedIsNot(times[i]);
    }
  }

  // A message, another one asked for at the expiry of the first, and the first again earlier.
  lemma PurgedBetween(run: seq<Attempt>, a: nat, b: nat, c: nat)
    requires a < b < c < |run| && Valid(run[a]) && Valid(run[c]) && Asked(run[b]) && run[a].message == run[c].message
    requires forall i :: 0 <= i < |run| && i != a && i != b && i != c ==> !Asked(run[i])
    requires run[a].message.expiresAt == run[b].now && Key(run[a].message) != Key(run[b].message)
    ensures Admitted(run, a) && Admitted(run, c)
  {
    ValidInTime(run[a]);
    SeenStays(Asked, run, 0, a);
    SeenOnce(Asked, run, a, b);
    SeenOnce(Asked, run, b, c);
    Forgets(run[a].message, run[b].message, run[a].now, run[b].now);
  }

  // The window after one attempt that asks and others that do not.
  lemma SeenOnce(asked: Attempt -> bool, run: seq<Attempt>, i: nat, k: nat)
    requires i < k <= |run| && asked(run[i]) && forall m :: i < m < k ==> !asked(run[m])
    ensures SeenWith(asked, run, k) == SeenNext(SeenWith(asked, run, i), run[i].message, run[i].now)
  {
    SeenStays(asked, run, i + 1, k);
  }

  // The gateway asks the window for valid messages only.
  predicate AsksForValid(run: seq<Attempt>) { forall i :: 0 <= i < |run| ==> !run[i].asks }

  // A clock with a peak can: a valid message at the peak purges the other one, which then passes
  // again.
  lemma PeakAdmitsTwice(times: seq<real>, a: nat, b: nat, c: nat)
    requires Peak(times, a, b, c)
    ensures var run := Replay(times, a, b, c); Times(run) == times && AsksForValid(run) && AdmittedTwice(run)
  {
    var run := Replay(times, a, b, c);
    ReplayTimes(times, a, b, c);
    ReplayValid(times, a, b, c);
    PurgedBetween(run, a, b, c);
  }

  // The clocks under which no run admits a message twice are exactly those without a peak,
  // whether or not the gateway asks for invalid messages too.
  lemma OnceIffNoPeak(times: seq<real>)
    ensures (forall run :: Times(run) == times ==> !AdmittedTwice(run)) <==> !HasPeak(times)
    ensures (forall run :: Times(run) == times && AsksForValid(run) ==> !AdmittedTwice(run)) <==> !HasPeak(times)
  {
    if HasPeak(times) {
      var a, b, c :| Peak(times, a, b, c);
      PeakAdmitsTwice(times, a, b, c);
    } else {
      forall run | Times(run) == times
        ensures !AdmittedTwice(run)
      {
        AdmittedOnce(run);
      }
    }
  }

  // ---- Senders with a colon ----

  // Two senders whose messages have the same key.
  function Colliding(s: string, n: string, t: string, o: string, now: real): seq<Attempt> {
    [Signed(s, n, now, now, now + 1.0), Signed(t, o, now, now, now + 1.0)]
  }

  lemma SecondRefused(run: seq<Attempt>)
    requires |run| == 2 && Valid(run[0]) && Key(run[0].message) == Key(run[1].message)
    requires run[0].message.expiresAt >= run[1].now
    ensures !Admitted(run, 1)
  {
    ValidInTime(run[0]);
    assert SeenWith(Asked, run, 0) == map[];
  }

  // A valid first message of the sender `s` with the nonce `t:n` is refused behind one of the
  // sender `s:t` with the nonce `n`.
  lemma ColonRefused(s: string, n: string, t: string, o: string, now: real)
    requires s == "s:t" && n == "n" && t == "s" && o == "t:n"
    ensures var run := Colliding(s, n, t, o, now);
            Valid(run[1]) && !SameSource(run[0].message, run[1].message) && !Admitted(run, 1)
  {
    var run := Colliding(s, n, t, o, now);
    assert |s| == 3 && |t| == 1;
    SignedIsValid(s, n, now, now, now + 1.0);
    SignedIsValid(t, o, now, now, now + 1.0);
    assert s + ":" + n == t + ":" + o;
    SecondRefused(run);
  }
}
