// Weighted consensus of agent/src/core/consensus.ts, over exact reals.
module Consensus {
  import opened Sequences
  import opened Text

  datatype Candidate = Candidate(candidateId: string, outputHash: string, modelId: string, weight: real)

  datatype Vote = Vote(voterId: string, candidateId: string, confidence: real, invariantPass: bool)

  datatype Status = Accepted | Undecided

  datatype Reason = NoQuorum | Tie

  datatype Decision = Decision(status: Status, candidateId: Option<string>, support: real, quorum: real,
          reasons: seq<Reason>)

  datatype Error =
    | NoCandidate
    | BadQuorum
    | DuplicateCandidate
    | IdentityRequired
    | BadWeight
    | DuplicateVoter(voterId: string)
    | UnknownCandidate
    | BadConfidence

  // ---- Valid input ----

  predicate GoodCandidate(c: Candidate) {
    TrimStart(c.candidateId) != "" && TrimStart(c.outputHash) != "" && TrimStart(c.modelId) != "" && c.weight > 0.0
  }

  predicate GoodCandidates(candidates: seq<Candidate>) {
    && candidates != []
    && (forall c :: c in candidates ==> GoodCandidate(c))
    && (forall i, j :: 0 <= i < j < |candidates| ==> candidates[i].candidateId != candidates[j].candidateId)
  }

  predicate Known(candidates: seq<Candidate>, id: string) {
    exists c :: c in candidates && c.candidateId == id
  }

  predicate GoodVotes(candidates: seq<Candidate>, votes: seq<Vote>) {
    && (forall v :: v in votes ==> Known(candidates, v.candidateId) && 0.0 <= v.confidence <= 1.0)
    && (forall i, j :: 0 <= i < j < |votes| ==> votes[i].voterId != votes[j].voterId)
  }

  predicate GoodInput(candidates: seq<Candidate>, votes: seq<Vote>, quorum: real) {
    GoodCandidates(candidates) && 0.0 < quorum <= 1.0 && GoodVotes(candidates, votes)
  }

  // ---- Support ----

  function Total(candidates: seq<Candidate>): real {
    if candidates == [] then 0.0 else Total(candidates[..|candidates| - 1]) + candidates[|candidates| - 1].weight
  }

  function Weight(candidates: seq<Candidate>, id: string): real {
    if candidates == [] then 0.0
    else if candidates[|candidates| - 1].candidateId == id then candidates[|candidates| - 1].weight
    else Weight(candidates[..|candidates| - 1], id)
  }

  function Share(candidates: seq<Candidate>, vote: Vote, id: string): real {
    if vote.invariantPass && vote.candidateId == id then Weight(candidates, id) * vote.confidence else 0.0
  }

  // The weighted confidence of the votes for a candidate that pass the invariants.
  function Support(candidates: seq<Candidate>, votes: seq<Vote>, id: string): real {
    if votes == [] then 0.0
    else Support(candidates, votes[..|votes| - 1], id) + Share(candidates, votes[|votes| - 1], id)
  }

  // No candidate has more support than `top`, and some candidate has that much.
  predicate IsTop(candidates: seq<Candidate>, votes: seq<Vote>, top: real) {
    && (exists c :: c in candidates && Support(candidates, votes, c.candidateId) == top)
    && (forall c :: c in candidates ==> Support(candidates, votes, c.candidateId) <= top)
  }

  predicate Tied(candidates: seq<Candidate>, votes: seq<Vote>, top: real) {
    exists c, d :: c in candidates && d in candidates && c.candidateId != d.candidateId
                && Support(candidates, votes, c.candidateId) == top == Support(candidates, votes, d.candidateId)
  }

  // The support a candidate needs.
  function Needed(candidates: seq<Candidate>, quorum: real): real { quorum * Total(candidates) }

  // The form of a decision, given whether the top support is too small, and whether it is
  // shared.
  predicate Verdict(d: Decision, short: bool, tied: bool) {
    if short then d.status == Undecided && d.candidateId == None && d.reasons == [NoQuorum]
    else if tied then d.status == Undecided && d.candidateId == None && d.reasons == [Tie]
    else d.status == Accepted && d.candidateId.Some? && d.reasons == []
  }

  predicate Chosen(candidates: seq<Candidate>, votes: seq<Vote>, id: string, top: real) {
    Known(candidates, id) && Support(candidates, votes, id) == top
  }

  predicate Decided(d: Decision, candidates: seq<Candidate>, votes: seq<Vote>, needed: real) {
    && IsTop(candidates, votes, d.support)
    && Verdict(d, d.support < needed, Tied(candidates, votes, d.support))
    && (d.candidateId.Some? ==> Chosen(candidates, votes, d.candidateId.value, d.support))
  }

  // What the decision must be.
  predicate Outcome(d: Decision, candidates: seq<Candidate>, votes: seq<Vote>, quorum: real) {
    d.quorum == quorum && Decided(d, candidates, votes, Needed(candidates, quorum))
  }

  // c has enough support, and strictly more than every other candidate.
  predicate Wins(candidates: seq<Candidate>, votes: seq<Vote>, quorum: real, id: string) {
    && Known(candidates, id)
    && Support(candidates, votes, id) >= Needed(candidates, quorum)
    && forall c :: c in candidates && c.candidateId != id ==>
         Support(candidates, votes, c.candidateId) < Support(candidates, votes, id)
  }

  // ---- The decision ----

  // The first candidate that is not good stands at i.
  predicate FirstBad(candidates: seq<Candidate>, i: int) {
    && 0 <= i < |candidates| && !GoodCandidate(candidates[i])
    && forall k :: 0 <= k < i ==> GoodCandidate(candidates[k])
  }

  predicate BadFor(c: Candidate, error: Error) {
    error == if c.weight > 0.0 || "" in Identity(c) then IdentityRequired else BadWeight
  }

  // Candidates or a quorum that are refused, by the error: the first that applies.
  predicate CandidatesRefused(candidates: seq<Candidate>, quorum: real, error: Error) {
    var repeated := exists i, j :: 0 <= i < j < |candidates| && candidates[i].candidateId == candidates[j].candidateId;
    if candidates == [] then error == NoCandidate
    else if !(0.0 < quorum <= 1.0) then error == BadQuorum
    else if repeated then error == DuplicateCandidate
    else exists i :: 0 <= i < |candidates| && FirstBad(candidates, i) && BadFor(candidates[i], error)
  }

  function Identity(c: Candidate): seq<string> {
    [TrimStart(c.candidateId), TrimStart(c.outputHash), TrimStart(c.modelId)]
  }

  method CheckCandidates(candidates: seq<Candidate>, quorum: real) returns (error: Option<Error>)
    ensures error == None <==> GoodCandidates(candidates) && 0.0 < quorum <= 1.0
    ensures error.Some? ==> CandidatesRefused(candidates, quorum, error.value)
  {
    if candidates == [] {
      return Some(NoCandidate);
    }
    if quorum <= 0.0 || quorum > 1.0 {
      return Some(BadQuorum);
    }
    if exists i, j :: 0 <= i < j < |candidates| && candidates[i].candidateId == candidates[j].candidateId {
      return Some(DuplicateCandidate);
    }
    for i := 0 to |candidates|
      invariant forall k :: 0 <= k < i ==> GoodCandidate(candidates[k])
    {
      var c := candidates[i];
      if TrimStart(c.candidateId) == "" || TrimStart(c.outputHash) == "" || TrimStart(c.modelId) == "" {
        assert FirstBad(candidates, i);
        return Some(IdentityRequired);
      }
      if c.weight <= 0.0 {
        assert FirstBad(candidates, i);
        return Some(BadWeight);
      }
    }
    return None;
  }

  // The support of each candidate that has a passing vote.
  ghost predicate Tally(candidates: seq<Candidate>, votes: seq<Vote>, support: map<string, real>) {
    && (forall id :: id in support ==> Known(candidates, id))
    && (forall id :: SupportIn(support, id) == Support(candidates, votes, id))
  }

  function SupportIn(support: map<string, real>, id: string): real { if id in support then support[id] else 0.0 }

  predicate GoodVote(candidates: seq<Candidate>, vote: Vote) {
    Known(candidates, vote.candidateId) && 0.0 <= vote.confidence <= 1.0
  }

  lemma OneMoreVote(candidates: seq<Candidate>, votes: seq<Vote>, i: nat)
    requires i < |votes| && GoodVotes(candidates, votes[..i])
    ensures GoodVotes(candidates, votes[..i + 1])
       <==> GoodVote(candidates, votes[i]) && forall k :: 0 <= k < i ==> votes[k].voterId != votes[i].voterId
    ensures GoodVotes(candidates, votes) ==> GoodVotes(candidates, votes[..i + 1])
  {
    var longer := votes[..i + 1];
    assert longer == votes[..i] + [votes[i]];
    assert forall k :: 0 <= k <= i ==> longer[k] == votes[k];
    assert longer[i] in longer;
  }

  lemma OneMoreShare(candidates: seq<Candidate>, votes: seq<Vote>, i: nat, id: string)
    requires i < |votes|
    ensures Support(candidates, votes[..i + 1], id)
         == Support(candidates, votes[..i], id) + Share(candidates, votes[i], id)
  {
    assert votes[..i + 1][..i] == votes[..i];
  }

  function Counted(candidates: seq<Candidate>, support: map<string, real>, vote: Vote): map<string, real> {
    if !vote.invariantPass then support else
      var before := if vote.candidateId in support then support[vote.candidateId] else 0.0;
      support[vote.candidateId := before + Weight(candidates, vote.candidateId) * vote.confidence]
  }

  lemma CountedShare(candidates: seq<Candidate>, support: map<string, real>, vote: Vote, id: string)
    ensures SupportIn(Counted(candidates, support, vote), id) == SupportIn(support, id) + Share(candidates, vote, id)
  {
  }

  lemma OneMoreTally(candidates: seq<Candidate>, votes: seq<Vote>, i: nat, support: map<string, real>)
    requires i < |votes| && Tally(candidates, votes[..i], support) && Known(candidates, votes[i].candidateId)
    ensures Tally(candidates, votes[..i + 1], Counted(candidates, support, votes[i]))
  {
    forall id
      ensures SupportIn(Counted(candidates, support, votes[i]), id) == Support(candidates, votes[..i + 1], id)
    {
      OneMoreShare(candidates, votes, i, id);
      CountedShare(candidates, support, votes[i], id);
    }
  }

  // The vote at i is the first that is refused, and why.
  ghost predicate VoteRefused(candidates: seq<Candidate>, votes: seq<Vote>, i: nat, error: Error) {
    && i < |votes| && GoodVotes(candidates, votes[..i])
    && if exists k :: 0 <= k < i && votes[k].voterId == votes[i].voterId then error == DuplicateVoter(votes[i].voterId)
       else if forall c :: c in candidates ==> c.candidateId != votes[i].candidateId then error == UnknownCandidate
       else !(0.0 <= votes[i].confidence <= 1.0) && error == BadConfidence
  }

  method CountVotes(candidates: seq<Candidate>, votes: seq<Vote>)
      returns (error: Option<Error>, support: map<string, real>)
    ensures error == None <==> GoodVotes(candidates, votes)
    ensures error.Some? ==> exists i :: VoteRefused(candidates, votes, i, error.value)
    ensures error == None ==> Tally(candidates, votes, support)
  {
    var seenVoters := {};
    support := map[];
    for i := 0 to |votes|
      invariant GoodVotes(candidates, votes[..i])
      invariant seenVoters == set k | 0 <= k < i :: votes[k].voterId
      invariant Tally(candidates, votes[..i], support)
    {
      var vote := votes[i];
      OneMoreVote(candidates, votes, i);
      if vote.voterId in seenVoters {
        assert VoteRefused(candidates, votes, i, DuplicateVoter(vote.voterId));
        return Some(DuplicateVoter(vote.voterId)), map[];
      }
      seenVoters := seenVoters + {vote.voterId};
      if !Known(candidates, vote.candidateId) {
        assert VoteRefused(candidates, votes, i, UnknownCandidate);
        return Some(UnknownCandidate), map[];
      }
      if vote.confidence < 0.0 || vote.confidence > 1.0 {
        assert VoteRefused(candidates, votes, i, BadConfidence);
        return Some(BadConfidence), map[];
      }
      OneMoreTally(candidates, votes, i, support);
      support := Counted(candidates, support, vote);
    }
    assert votes[..|votes|] == votes;
    return None, support;
  }

  lemma {:induction false} LargestExists(support: map<string, real>, keys: set<string>) returns (k: string)
    requires keys != {} && keys <= support.Keys
    ensures k in keys && forall m :: m in keys ==> support[m] <= support[k]
    decreases keys
  {
    k :| k in keys;
    if keys != {k} {
      var m := LargestExists(support, keys - {k});
      if support[k] < support[m] { k := m; }
    }
  }

  // All entries, each once, by falling support.
  predicate Ranking(support: map<string, real>,
        ranked: seq<(string, real)>) {
    && (forall i :: 0 <= i < |ranked| ==> ranked[i].0 in support && support[ranked[i].0] == ranked[i].1)
    && (forall i, j :: 0 <= i < j < |ranked| ==> ranked[i].1 >= ranked[j].1 && ranked[i].0 != ranked[j].0)
    && (forall k :: k in support ==> exists i :: 0 <= i < |ranked| && ranked[i].0 == k)
  }

  predicate Falling(ranked: seq<(string, real)>) {
    forall i, j :: 0 <= i < j < |ranked| ==> ranked[i].1 >= ranked[j].1 && ranked[i].0 != ranked[j].0
  }

  predicate Above(support: map<string, real>, rest: set<string>, ranked: seq<(string, real)>)
    requires rest <= support.Keys
  {
    forall i, k :: 0 <= i < |ranked| && k in rest ==> ranked[i].1 >= support[k]
  }

  predicate Holds(support: map<string, real>, rest: set<string>, ranked: seq<(string, real)>) {
    && (forall i :: 0 <= i < |ranked| ==>
          ranked[i].0 in support && ranked[i].0 !in rest && support[ranked[i].0] == ranked[i].1)
    && (forall k :: k in support && k !in rest ==> exists i :: 0 <= i < |ranked| && ranked[i].0 == k)
  }

  lemma HoldsMore(support: map<string, real>, rest: set<string>, ranked: seq<(string, real)>, k: string)
    requires Holds(support, rest, ranked) && k in rest && k in support
    ensures Holds(support, rest - {k}, ranked + [(k, support[k])])
  {
    var longer := ranked + [(k, support[k])];
    forall m | m in support && m !in rest - {k}
      ensures exists i :: 0 <= i < |longer| && longer[i].0 == m
    {
      if m == k {
        assert longer[|ranked|].0 == m;
      } else {
        var i :| 0 <= i < |ranked| && ranked[i].0 == m;
        assert longer[i].0 == m;
      }
    }
  }

  lemma FallingMore(support: map<string, real>, rest: set<string>, ranked: seq<(string, real)>, k: string)
    requires rest <= support.Keys && Falling(ranked) && Above(support, rest, ranked) && Holds(support, rest, ranked)
    requires k in rest && forall m :: m in rest ==> support[m] <= support[k]
    ensures Falling(ranked + [(k, support[k])]) && Above(support, rest - {k}, ranked + [(k, support[k])])
  {
  }

  // All entries by falling support; entries with equal support may come in any order.
  method Rank(support: map<string, real>) returns (ranked: seq<(string, real)>)
    ensures Ranking(support, ranked)
  {
    ranked := [];
    var rest := support.Keys;
    while rest != {}
      invariant rest <= support.Keys
      invariant Holds(support, rest, ranked) && Falling(ranked) && Above(support, rest, ranked)
      decreases rest
    {
      ghost var largest := LargestExists(support, rest);
      var k :| k in rest && forall m :: m in rest ==> support[m] <= support[k];
      HoldsMore(support, rest, ranked, k);
      FallingMore(support, rest, ranked, k);
      ranked := ranked + [(k, support[k])];
      rest := rest - {k};
    }
  }

  lemma {:induction false} TotalPositive(candidates: seq<Candidate>)
    requires candidates != [] && forall c :: c in candidates ==> c.weight > 0.0
    ensures Total(candidates) > 0.0
  {
    var front := candidates[..|candidates| - 1];
    assert candidates[|candidates| - 1] in candidates;
    if front != [] {
      TotalPositive(front);
    }
  }

  lemma {:induction false} WeightNotNegative(candidates: seq<Candidate>, id: string)
    requires forall c :: c in candidates ==> c.weight > 0.0
    ensures Weight(candidates, id) >= 0.0
  {
    if candidates != [] {
      assert candidates[|candidates| - 1] in candidates;
      WeightNotNegative(candidates[..|candidates| - 1], id);
    }
  }

  lemma {:induction false} SupportNotNegative(candidates: seq<Candidate>, votes: seq<Vote>, id: string)
    requires forall c :: c in candidates ==> c.weight > 0.0
    requires forall v :: v in votes ==> v.confidence >= 0.0
    ensures Support(candidates, votes, id) >= 0.0
  {
    if votes != [] {
      assert votes[|votes| - 1] in votes;
      SupportNotNegative(candidates, votes[..|votes| - 1], id);
      WeightNotNegative(candidates, id);
    }
  }

  // The sum compared with the quorum share of the total is the ratio compared with the quorum.
  lemma RatioIsShare(sum: real, total: real, quorum: real)
    requires total > 0.0
    ensures sum / total < quorum <==> sum < quorum * total
  {
    var ratio := sum / total;
    assert ratio * total == sum;
    if ratio < quorum {
      assert (quorum - ratio) * total > 0.0;
    } else {
      assert (ratio - quorum) * total >= 0.0;
    }
  }

  lemma TopOfRanking(candidates: seq<Candidate>, votes: seq<Vote>, support: map<string, real>,
        ranked: seq<(string, real)>, top: real)
    requires candidates != [] && Tally(candidates, votes, support) && Ranking(support, ranked)
    requires forall id :: Support(candidates, votes, id) >= 0.0
    requires top == if ranked == [] then 0.0 else ranked[0].1
    ensures IsTop(candidates, votes, top)
  {
    forall c | c in candidates
      ensures Support(candidates, votes, c.candidateId) <= top
    {
      if c.candidateId in support {
        var i :| 0 <= i < |ranked| && ranked[i].0 == c.candidateId;
      }
    }
    if ranked == [] {
      assert candidates[0] in candidates && candidates[0].candidateId !in support;
    } else {
      var c :| c in candidates && c.candidateId == ranked[0].0;
      assert Support(candidates, votes, c.candidateId) == top;
    }
  }

  lemma EqualsTie(candidates: seq<Candidate>, votes: seq<Vote>, support: map<string, real>, i: string, j: string)
    requires Tally(candidates, votes, support)
    requires i in support && j in support && i != j && support[i] == support[j]
    ensures Tied(candidates, votes, support[i])
  {
    var c :| c in candidates && c.candidateId == i;
    var d :| d in candidates && d.candidateId == j;
    assert Support(candidates, votes, c.candidateId) == support[i] == Support(candidates, votes, d.candidateId);
  }

  lemma TieIsEqual(candidates: seq<Candidate>, votes: seq<Vote>, support: map<string, real>, top: real)
      returns (i: string, j: string)
    requires Tally(candidates, votes, support) && top > 0.0 && Tied(candidates, votes, top)
    ensures i in support && j in support && i != j && support[i] == top == support[j]
  {
    var c, d :| c in candidates && d in candidates && c.candidateId != d.candidateId
             && Support(candidates, votes, c.candidateId) == top == Support(candidates, votes, d.candidateId);
    i, j := c.candidateId, d.candidateId;
  }

  lemma TieOfRanking(candidates: seq<Candidate>, votes: seq<Vote>, support: map<string, real>,
        ranked: seq<(string, real)>)
    requires Tally(candidates, votes, support) && Ranking(support, ranked)
    requires ranked != [] && ranked[0].1 > 0.0
    ensures Tied(candidates, votes, ranked[0].1) <==> |ranked| > 1 && ranked[1].1 == ranked[0].1
  {
    var top := ranked[0].1;
    if |ranked| > 1 && ranked[1].1 == top {
      EqualsTie(candidates, votes, support, ranked[0].0, ranked[1].0);
    }
    if Tied(candidates, votes, top) {
      var a, b := TieIsEqual(candidates, votes, support, top);
      SecondIsTop(support, ranked, a, b);
    }
  }

  lemma SecondIsTop(support: map<string, real>,
        ranked: seq<(string, real)>, a: string, b: string)
    requires Ranking(support, ranked) && ranked != []
    requires a in support && b in support && a != b && support[a] == support[b] == ranked[0].1
    ensures |ranked| > 1 && ranked[1].1 == ranked[0].1
  {
    var i :| 0 <= i < |ranked| && ranked[i].0 == a;
    var j :| 0 <= j < |ranked| && ranked[j].0 == b;
    assert i > 0 || j > 0;
  }

  // The decision taken from a ranking.
  function Conclude(ranked: seq<(string, real)>, totalWeight: real, quorum: real): Decision
    requires totalWeight > 0.0
  {
    var top := if ranked == [] then 0.0 else ranked[0].1;
    if ranked == [] || ranked[0].1 / totalWeight < quorum then Decision(Undecided, None, top, quorum, [NoQuorum])
    else if |ranked| > 1 && ranked[1].1 == ranked[0].1 then Decision(Undecided, None, top, quorum, [Tie])
    else Decision(Accepted, Some(ranked[0].0), top, quorum, [])
  }

  lemma AllSupportNotNegative(candidates: seq<Candidate>, votes: seq<Vote>, quorum: real)
    requires GoodInput(candidates, votes, quorum)
    ensures forall id :: Support(candidates, votes, id) >= 0.0
  {
    forall id
      ensures Support(candidates, votes, id) >= 0.0
    {
      SupportNotNegative(candidates, votes, id);
    }
  }

  // The decision in terms of the support needed.
  function Form(ranked: seq<(string, real)>, needed: real, quorum: real): Decision {
    if ranked == [] then Decision(Undecided, None, 0.0, quorum, [NoQuorum])
    else if ranked[0].1 < needed then Decision(Undecided, None, ranked[0].1, quorum, [NoQuorum])
    else if |ranked| > 1 && ranked[1].1 == ranked[0].1 then Decision(Undecided, None, ranked[0].1, quorum, [Tie])
    else Decision(Accepted, Some(ranked[0].0), ranked[0].1, quorum, [])
  }

  lemma ConcludeForm(ranked: seq<(string, real)>, total: real, quorum: real)
    requires total > 0.0
    ensures Conclude(ranked, total, quorum) == Form(ranked, quorum * total, quorum)
  {
    if ranked != [] {
      RatioIsShare(ranked[0].1, total, quorum);
    }
  }

  lemma FormDecides(candidates: seq<Candidate>, votes: seq<Vote>, support: map<string, real>,
        ranked: seq<(string, real)>, needed: real, quorum: real)
    requires candidates != [] && needed > 0.0
    requires forall id :: Support(candidates, votes, id) >= 0.0
    requires Tally(candidates, votes, support) && Ranking(support, ranked)
    ensures Decided(Form(ranked, needed, quorum), candidates, votes, needed)
  {
    var top := if ranked == [] then 0.0 else ranked[0].1;
    TopOfRanking(candidates, votes, support, ranked, top);
    if ranked != [] && top > 0.0 {
      TieOfRanking(candidates, votes, support, ranked);
    }
  }

  lemma ConcludeDecides(candidates: seq<Candidate>, votes: seq<Vote>, support: map<string, real>,
          ranked: seq<(string, real)>, total: real, quorum: real, needed: real)
    requires candidates != [] && total > 0.0 && quorum > 0.0 && needed == quorum * total
    requires forall id :: Support(candidates, votes, id) >= 0.0
    requires Tally(candidates, votes, support) && Ranking(support, ranked)
    ensures Decided(Conclude(ranked, total, quorum), candidates, votes, needed)
    ensures Conclude(ranked, total, quorum).quorum == quorum
  {
    SharePositive(total, quorum);
    ConcludeForm(ranked, total, quorum);
    FormDecides(candidates, votes, support, ranked, needed, quorum);
  }

  lemma SharePositive(total: real, quorum: real)
    requires total > 0.0 && quorum > 0.0
    ensures quorum * total > 0.0
  {
  }

  method Weigh(ghost candidates: seq<Candidate>, ghost votes: seq<Vote>, ghost support: map<string, real>,
               ranked: seq<(string, real)>, totalWeight: real, quorum: real, ghost needed: real) returns (d: Decision)
    requires candidates != [] && totalWeight > 0.0 && quorum > 0.0 && needed == quorum * totalWeight
    requires forall id :: Support(candidates, votes, id) >= 0.0
    requires Tally(candidates, votes, support) && Ranking(support, ranked)
    ensures Decided(d, candidates, votes, needed) && d.quorum == quorum
  {
    ConcludeDecides(candidates, votes, support, ranked, totalWeight, quorum, needed);
    return Conclude(ranked, totalWeight, quorum);
  }

  // `decideConsensus`
  method DecideConsensus(candidates: seq<Candidate>, votes: seq<Vote>, quorum: real)
      returns (r: Result<Decision, Error>)
    ensures r.Ok? <==> GoodInput(candidates, votes, quorum)
    ensures r.Err? ==>
              if GoodCandidates(candidates) && 0.0 < quorum <= 1.0
              then exists i :: VoteRefused(candidates, votes, i, r.error)
              else CandidatesRefused(candidates, quorum, r.error)
    ensures r.Ok? ==> Outcome(r.value, candidates, votes, quorum)
  {
    var error := CheckCandidates(candidates, quorum);
    if error.Some? {
      return Err(error.value);
    }
    var support;
    error, support := CountVotes(candidates, votes);
    if error.Some? {
      return Err(error.value);
    }
    TotalPositive(candidates);
    var ranked := Rank(support);
    AllSupportNotNegative(candidates, votes, quorum);
    var totalWeight := Total(candidates);
    var decision := Weigh(candidates, votes, support, ranked, totalWeight, quorum, Needed(candidates, quorum));
    return Ok(decision);
  }

  // ---- What the decision depends on ----

  // The decision is determined by the support of the candidates: nothing else, and not the
  // order of equals in the ranking, matters.
  lemma OutcomeUnique(d: Decision, e: Decision, candidates: seq<Candidate>, votes: seq<Vote>, quorum: real)
    requires Outcome(d, candidates, votes, quorum) && Outcome(e, candidates, votes, quorum)
    ensures d == e
  {
    assert d.support == e.support;
  }

  // Accepted means: at least the quorum share of the total weight, and strictly more support
  // than any other candidate.
  lemma AcceptedWins(d: Decision, candidates: seq<Candidate>, votes: seq<Vote>, quorum: real, id: string)
    requires Outcome(d, candidates, votes, quorum)
    ensures d.status == Accepted && d.candidateId == Some(id) <==> Wins(candidates, votes, quorum, id)
  {
    if d.status == Accepted && d.candidateId == Some(id) {
      forall c | c in candidates && c.candidateId != id
        ensures Support(candidates, votes, c.candidateId) < Support(candidates, votes, id)
      {
        var x :| x in candidates && x.candidateId == id;
        assert Support(candidates, votes, c.candidateId) == Support(candidates, votes, x.candidateId)
          ==> Tied(candidates, votes, d.support);
      }
    }
    if Wins(candidates, votes, quorum, id) {
      var x :| x in candidates && x.candidateId == id;
      var t :| t in candidates && Support(candidates, votes, t.candidateId) == d.support;
      assert t.candidateId == id;
      assert !Tied(candidates, votes, d.support);
    }
  }

  predicate SameSupport(a: seq<Candidate>, u: seq<Vote>, b: seq<Candidate>, v: seq<Vote>) {
    && (forall c :: c in a ==> c in b && Support(a, u, c.candidateId) == Support(b, v, c.candidateId))
    && (forall c :: c in b ==> c in a && Support(a, u, c.candidateId) == Support(b, v, c.candidateId))
  }

  lemma TiedBySupport(a: seq<Candidate>, u: seq<Vote>, b: seq<Candidate>, v: seq<Vote>, top: real)
    requires SameSupport(a, u, b, v) && Tied(a, u, top)
    ensures Tied(b, v, top)
  {
    var x, y :| x in a && y in a && x.candidateId != y.candidateId
             && Support(a, u, x.candidateId) == top == Support(a, u, y.candidateId);
    assert x in b && y in b && Support(b, v, x.candidateId) == top == Support(b, v, y.candidateId);
  }

  lemma TopBySupport(a: seq<Candidate>, u: seq<Vote>, b: seq<Candidate>, v: seq<Vote>, top: real)
    requires SameSupport(a, u, b, v) && IsTop(a, u, top)
    ensures IsTop(b, v, top)
  {
    var c :| c in a && Support(a, u, c.candidateId) == top;
    assert c in b && Support(b, v, c.candidateId) == top;
  }

  lemma ChosenBySupport(a: seq<Candidate>, u: seq<Vote>, b: seq<Candidate>, v: seq<Vote>, id: string, top: real)
    requires SameSupport(a, u, b, v) && Chosen(a, u, id, top)
    ensures Chosen(b, v, id, top)
  {
    var x :| x in a && x.candidateId == id;
    assert x in b;
  }

  lemma SameSupportBack(a: seq<Candidate>, u: seq<Vote>, b: seq<Candidate>, v: seq<Vote>)
    requires SameSupport(a, u, b, v)
    ensures SameSupport(b, v, a, u)
  {
  }

  lemma DecidedBySupport(d: Decision, a: seq<Candidate>, u: seq<Vote>, b: seq<Candidate>, v: seq<Vote>, needed: real)
    requires SameSupport(a, u, b, v)
    requires Decided(d, a, u, needed)
    ensures Decided(d, b, v, needed)
  {
    TopBySupport(a, u, b, v, d.support);
    if Tied(a, u, d.support) {
      TiedBySupport(a, u, b, v, d.support);
    } else if Tied(b, v, d.support) {
      SameSupportBack(a, u, b, v);
      TiedBySupport(b, v, a, u, d.support);
    }
    if d.candidateId.Some? { ChosenBySupport(a, u, b, v, d.candidateId.value, d.support); }
  }

  lemma OutcomeBySupport(d: Decision, a: seq<Candidate>, u: seq<Vote>, b: seq<Candidate>, v: seq<Vote>, quorum: real)
    requires SameSupport(a, u, b, v) && Total(a) == Total(b)
    requires Outcome(d, a, u, quorum)
    ensures Outcome(d, b, v, quorum)
  {
    var needed := Needed(a, quorum);
    SameNeeded(a, b, quorum);
    assert Decided(d, a, u, needed);
    DecidedBySupport(d, a, u, b, v, needed);
    assert Decided(d, b, v, needed);
  }

  lemma SameNeeded(a: seq<Candidate>, b: seq<Candidate>, quorum: real)
    requires Total(a) == Total(b)
    ensures Needed(a, quorum) == Needed(b, quorum)
  {
  }

  // ---- Order of the votes ----

  lemma {:induction false} SupportSplit(candidates: seq<Candidate>, a: seq<Vote>, b: seq<Vote>, id: string)
    ensures Support(candidates, a + b, id) == Support(candidates, a, id) + Support(candidates, b, id)
  {
    if b == [] {
      assert a + b == a;
    } else {
      assert (a + b)[..|a + b| - 1] == a + b[..|b| - 1];
      SupportSplit(candidates, a, b[..|b| - 1], id);
    }
  }

  // s without its element at i.
  function Without<T>(s: seq<T>, i: nat): seq<T>
    requires i < |s|
  {
    s[..i] + s[i + 1..]
  }

  lemma FindSame<T>(a: seq<T>, b: seq<T>) returns (i: nat)
    requires a != [] && multiset(a) == multiset(b)
    ensures i < |b| && b[i] == a[|a| - 1]
    ensures multiset(Without(b, i)) == multiset(a[..|a| - 1])
  {
    var x := a[|a| - 1];
    assert x in multiset(a) && x in multiset(b) && x in b;
    i :| 0 <= i < |b| && b[i] == x;
    assert a == a[..|a| - 1] + [x];
    assert b == b[..i] + [x] + b[i + 1..];
    assert multiset(a[..|a| - 1]) == multiset(a) - multiset{x};
    assert multiset(Without(b, i)) == multiset(b) - multiset{x};
  }

  lemma {:induction false} SupportPermuted(candidates: seq<Candidate>, a: seq<Vote>, b: seq<Vote>, id: string)
    requires multiset(a) == multiset(b)
    ensures Support(candidates, a, id) == Support(candidates, b, id)
    decreases |a|
  {
    if a == [] {
      assert |b| == |multiset(b)| == 0;
    } else {
      var i := FindSame(a, b);
      SupportPermuted(candidates, a[..|a| - 1], Without(b, i), id);
      assert b == b[..i] + ([b[i]] + b[i + 1..]);
      SupportSplit(candidates, b[..i], [b[i]] + b[i + 1..], id);
      SupportSplit(candidates, [b[i]], b[i + 1..], id);
      SupportSplit(candidates, b[..i], b[i + 1..], id);
      assert [b[i]][..0] == [];
    }
  }

  // Permuting the votes changes nothing.
  lemma VotesPermuted(d: Decision, candidates: seq<Candidate>, a: seq<Vote>, b: seq<Vote>, quorum: real)
    requires multiset(a) == multiset(b)
    ensures Outcome(d, candidates, a, quorum) <==> Outcome(d, candidates, b, quorum)
  {
    forall id
      ensures Support(candidates, a, id) == Support(candidates, b, id)
    {
      SupportPermuted(candidates, a, b, id);
    }
    if Outcome(d, candidates, a, quorum) { OutcomeBySupport(d, candidates, a, candidates, b, quorum); }
    if Outcome(d, candidates, b, quorum) { OutcomeBySupport(d, candidates, b, candidates, a, quorum); }
  }

  // ---- Order of the candidates ----

  lemma {:induction false} TotalSplit(a: seq<Candidate>, b: seq<Candidate>)
    ensures Total(a + b) == Total(a) + Total(b)
  {
    if b == [] {
      assert a + b == a;
    } else {
      assert (a + b)[..|a + b| - 1] == a + b[..|b| - 1];
      TotalSplit(a, b[..|b| - 1]);
    }
  }

  lemma {:induction false} TotalPermuted(a: seq<Candidate>, b: seq<Candidate>)
    requires multiset(a) == multiset(b)
    ensures Total(a) == Total(b)
    decreases |a|
  {
    if a == [] {
      assert |b| == |multiset(b)| == 0;
    } else {
      var i := FindSame(a, b);
      TotalPermuted(a[..|a| - 1], Without(b, i));
      assert b == b[..i] + ([b[i]] + b[i + 1..]);
      TotalSplit(b[..i], [b[i]] + b[i + 1..]);
      TotalSplit([b[i]], b[i + 1..]);
      TotalSplit(b[..i], b[i + 1..]);
      assert [b[i]][..0] == [];
    }
  }

  predicate DistinctIds(candidates: seq<Candidate>) {
    forall c, d :: c in candidates && d in candidates && c.candidateId == d.candidateId ==> c == d
  }

  lemma {:induction false} WeightOf(candidates: seq<Candidate>, id: string)
    ensures Known(candidates, id) ==>
              exists c :: c in candidates && c.candidateId == id && c.weight == Weight(candidates, id)
    ensures !Known(candidates, id) ==> Weight(candidates, id) == 0.0
  {
    if candidates != [] {
      var front, last := candidates[..|candidates| - 1], candidates[|candidates| - 1];
      WeightOf(front, id);
      assert last in candidates;
      assert candidates == front + [last];
      if last.candidateId != id && Known(candidates, id) {
        var c :| c in candidates && c.candidateId == id;
        assert c in front;
      }
    }
  }

  lemma WeightPermuted(a: seq<Candidate>, b: seq<Candidate>, id: string)
    requires DistinctIds(a) && forall c :: c in a <==> c in b
    ensures Weight(a, id) == Weight(b, id)
  {
    WeightOf(a, id);
    WeightOf(b, id);
    if Known(a, id) {
      var c :| c in a && c.candidateId == id && c.weight == Weight(a, id);
      assert c in b;
      var e :| e in b && e.candidateId == id && e.weight == Weight(b, id);
    }
  }

  lemma {:induction false} SupportOfPermuted(a: seq<Candidate>, b: seq<Candidate>, votes: seq<Vote>, id: string)
    requires Weight(a, id) == Weight(b, id)
    ensures Support(a, votes, id) == Support(b, votes, id)
  {
    if votes != [] { SupportOfPermuted(a, b, votes[..|votes| - 1], id); }
  }

  // Permuting the candidates changes nothing.
  lemma CandidatesPermuted(d: Decision, a: seq<Candidate>, b: seq<Candidate>, votes: seq<Vote>, quorum: real)
    requires GoodCandidates(a) && multiset(a) == multiset(b)
    ensures Outcome(d, a, votes, quorum) <==> Outcome(d, b, votes, quorum)
  {
    forall c
      ensures c in a <==> c in b
    {
      assert c in multiset(a) <==> c in multiset(b);
    }
    TotalPermuted(a, b);
    forall id
      ensures Support(a, votes, id) == Support(b, votes, id)
    {
      WeightPermuted(a, b, id);
      SupportOfPermuted(a, b, votes, id);
    }
    if Outcome(d, a, votes, quorum) { OutcomeBySupport(d, a, votes, b, votes, quorum); }
    if Outcome(d, b, votes, quorum) { OutcomeBySupport(d, b, votes, a, votes, quorum); }
  }

  // ---- More votes ----

  // A candidate without votes has no support. One more vote gives its candidate the weight times
  // the confidence if it passes the invariants, and nothing otherwise, and nobody else anything.
  lemma OneVoteCounts(candidates: seq<Candidate>, votes: seq<Vote>, vote: Vote, c: Candidate)
    requires GoodCandidates(candidates) && c in candidates
    ensures Support(candidates, [], c.candidateId) == 0.0
    ensures Support(candidates, votes + [vote], c.candidateId) - Support(candidates, votes, c.candidateId)
         == if vote.invariantPass && vote.candidateId == c.candidateId then c.weight * vote.confidence else 0.0
  {
    WeightOf(candidates, c.candidateId);
    var more := votes + [vote];
    assert more[..|votes|] == votes;
  }

  // The total is the sum of the weights.
  lemma TotalIsSum(candidates: seq<Candidate>, c: Candidate)
    ensures Total([]) == 0.0 && Total(candidates + [c]) == Total(candidates) + c.weight
  {
    assert (candidates + [c])[..|candidates|] == candidates;
  }

  lemma SingleSupport(candidates: seq<Candidate>, vote: Vote, c: Candidate)
    requires GoodCandidates(candidates) && c in candidates
    ensures vote.invariantPass && vote.candidateId == c.candidateId ==>
              Support(candidates, [vote], c.candidateId) == c.weight * vote.confidence
    ensures !(vote.invariantPass && vote.candidateId == c.candidateId) ==>
              Support(candidates, [vote], c.candidateId) == 0.0
  {
    assert [] + [vote] == [vote];
    OneVoteCounts(candidates, [], vote, c);
  }

  lemma WinsAlone(candidates: seq<Candidate>, votes: seq<Vote>, quorum: real, id: string)
    requires Known(candidates, id) && Needed(candidates, quorum) > 0.0
    requires forall c :: c in candidates && c.candidateId != id ==> Support(candidates, votes, c.candidateId) == 0.0
    ensures Wins(candidates, votes, quorum, id) <==> Support(candidates, votes, id) >= Needed(candidates, quorum)
  {
  }

  lemma SingleWins(candidates: seq<Candidate>, vote: Vote, quorum: real, c: Candidate, share: real, needed: real)
    requires GoodInput(candidates, [vote], quorum) && c in candidates && c.candidateId == vote.candidateId
    requires share == c.weight * vote.confidence && needed == Needed(candidates, quorum)
    ensures Wins(candidates, [vote], quorum, c.candidateId) <==> vote.invariantPass && share >= needed
  {
    TotalPositive(candidates);
    SharePositive(Total(candidates), quorum);
    SingleSupport(candidates, vote, c);
    forall x | x in candidates && x.candidateId != c.candidateId
      ensures Support(candidates, [vote], x.candidateId) == 0.0
    {
      SingleSupport(candidates, vote, x);
    }
    WinsAlone(candidates, [vote], quorum, c.candidateId);
  }

  // A single vote decides for its candidate exactly when it passes the invariants and the weight
  // times the confidence meets the quorum's share of the total weight.
  lemma SingleVote(d: Decision, candidates: seq<Candidate>, votes: seq<Vote>, vote: Vote, quorum: real, c: Candidate,
                   share: real, needed: real)
    requires votes == [vote] && GoodInput(candidates, votes, quorum)
    requires c in candidates && c.candidateId == vote.candidateId
    requires share == c.weight * vote.confidence && needed == quorum * Total(candidates)
    requires Outcome(d, candidates, votes, quorum)
    ensures d.status == Accepted && d.candidateId == Some(c.candidateId) <==> vote.invariantPass && share >= needed
  {
    SingleWins(candidates, vote, quorum, c, share, needed);
    AcceptedIff(d, candidates, votes, quorum, c.candidateId, vote.invariantPass && share >= needed);
  }

  lemma AcceptedIff(d: Decision, candidates: seq<Candidate>, votes: seq<Vote>, quorum: real, id: string, wins: bool)
    requires Outcome(d, candidates, votes, quorum) && (Wins(candidates, votes, quorum, id) <==> wins)
    ensures d.status == Accepted && d.candidateId == Some(id) <==> wins
  {
    AcceptedWins(d, candidates, votes, quorum, id);
  }

  // Votes that fail the invariants do not count.
  lemma FailingVotesIgnored(d: Decision, candidates: seq<Candidate>, votes: seq<Vote>, failing: seq<Vote>, quorum: real)
    requires forall i :: 0 <= i < |failing| ==> !failing[i].invariantPass
    ensures Outcome(d, candidates, votes + failing, quorum) <==> Outcome(d, candidates, votes, quorum)
  {
    forall id
      ensures Support(candidates, votes + failing, id) == Support(candidates, votes, id)
    {
      SupportSplit(candidates, votes, failing, id);
      FailingSupport(candidates, failing, id);
    }
    var all := votes + failing;
    if Outcome(d, candidates, votes, quorum) { OutcomeBySupport(d, candidates, votes, candidates, all, quorum); }
    if Outcome(d, candidates, all, quorum) { OutcomeBySupport(d, candidates, all, candidates, votes, quorum); }
  }

  lemma {:induction false} FailingSupport(candidates: seq<Candidate>, failing: seq<Vote>, id: string)
    requires forall i :: 0 <= i < |failing| ==> !failing[i].invariantPass
    ensures Support(candidates, failing, id) == 0.0
  {
    if failing != [] { FailingSupport(candidates, failing[..|failing| - 1], id); }
  }

  // One more vote for the winner keeps it the winner.
  lemma WinnerKeepsWinning(candidates: seq<Candidate>, votes: seq<Vote>, vote: Vote, quorum: real)
    requires GoodCandidates(candidates) && Wins(candidates, votes, quorum, vote.candidateId)
    requires vote.confidence >= 0.0
    ensures Wins(candidates, votes + [vote], quorum, vote.candidateId)
  {
    var more := votes + [vote];
    assert more[..|votes|] == votes;
    WeightNotNegative(candidates, vote.candidateId);
    forall id
      ensures Support(candidates, more, id) == Support(candidates, votes, id) + Share(candidates, vote, id)
    {
    }
  }

  // ---- Permuted inputs give the same decision ----

  lemma {:induction false} FindTwice<T>(s: seq<T>, x: T) returns (i: nat, j: nat)
    requires multiset(s)[x] >= 2
    ensures i < j < |s| && s[i] == x && s[j] == x
  {
    var front, last := s[..|s| - 1], s[|s| - 1];
    assert s == front + [last];
    if last == x {
      assert x in multiset(front);
      i :| 0 <= i < |front| && front[i] == x;
      j := |s| - 1;
    } else {
      i, j := FindTwice(front, x);
    }
  }

  lemma KeysStayDistinct<T(!new)>(key: T -> string, a: seq<T>, b: seq<T>)
    requires multiset(a) == multiset(b)
    requires forall i, j :: 0 <= i < j < |a| ==> key(a[i]) != key(a[j])
    ensures forall i, j :: 0 <= i < j < |b| ==> key(b[i]) != key(b[j])
  {
    forall i, j | 0 <= i < j < |b|
      ensures key(b[i]) != key(b[j])
    {
      assert b[i] in multiset(b) && b[j] in multiset(b);
      assert b[i] in multiset(a) && b[j] in multiset(a);
      var p :| 0 <= p < |a| && a[p] == b[i];
      var q :| 0 <= q < |a| && a[q] == b[j];
      if p == q {
        CountTwice(b, i, j);
        var m, n := FindTwice(a, b[i]);
      }
    }
  }

  lemma GoodInputPermuted(a: seq<Candidate>, u: seq<Vote>, b: seq<Candidate>, v: seq<Vote>, quorum: real)
    requires GoodInput(a, u, quorum) && multiset(a) == multiset(b) && multiset(u) == multiset(v)
    ensures GoodInput(b, v, quorum)
  {
    KeysStayDistinct((c: Candidate) => c.candidateId, a, b);
    KeysStayDistinct((v: Vote) => v.voterId, u, v);
    assert |b| == |multiset(b)| == |multiset(a)| == |a|;
    assert forall c :: c in a <==> c in multiset(a);
    assert forall c :: c in b <==> c in multiset(b);
    assert forall x :: x in u <==> x in multiset(u);
    assert forall x :: x in v <==> x in multiset(v);
  }

  // The same candidates and votes in another order are as valid and decided alike.
  lemma OrderDoesNotMatter(d: Decision, a: seq<Candidate>, u: seq<Vote>,
                           e: Decision, b: seq<Candidate>, v: seq<Vote>, quorum: real)
    requires GoodInput(a, u, quorum) && multiset(a) == multiset(b) && multiset(u) == multiset(v)
    ensures GoodInput(b, v, quorum)
    ensures Outcome(d, a, u, quorum) && Outcome(e, b, v, quorum) ==> d == e
  {
    GoodInputPermuted(a, u, b, v, quorum);
    if Outcome(d, a, u, quorum) && Outcome(e, b, v, quorum) {
      CandidatesPermuted(d, a, b, u, quorum);
      VotesPermuted(d, b, u, v, quorum);
      OutcomeUnique(d, e, b, v, quorum);
    }
  }
}
