/** The tables of voting/models.py as in-memory sequences of rows (in primary-key order), the
    constraints the schema declares on them, and the cascade deletes its foreign keys imply. */
module Models {

  datatype Option<T> = None | Some(value: T)

  /** Primary keys. Django's auto-increment keys are positive and never reused. */
  type Id = nat

  datatype Election = Election(id: Id, title: string)

  /** `voted` defaults to false when a voter is created. */
  datatype Voter = Voter(id: Id, election: Id, sin: string, voted: bool)

  /** `maxVote` and `priority` are plain integers: the schema does not force `maxVote >= 1`
      nor a dense priority order. */
  datatype Position = Position(id: Id, election: Id, name: string, maxVote: int, priority: int)

  datatype Candidate = Candidate(id: Id, fullname: string, position: Id)

  /** One row per selected candidate. No uniqueness constraint: duplicate
      (voter, position, candidate) rows are possible. */
  datatype VoteRow = VoteRow(id: Id, voter: Id, position: Id, candidate: Id)

  /** A snapshot of every table, with the next value of each key sequence the views allocate from. */
  datatype Db = Db(
    elections: seq<Election>,
    voters: seq<Voter>,
    positions: seq<Position>,
    candidates: seq<Candidate>,
    votes: seq<VoteRow>,
    nextVoterId: Id,
    nextPositionId: Id,
    nextVoteId: Id)

  // ---------------------------------------------------------------------------------------------
  // Filtering and distinct keys

  /** The rows of `s` that satisfy `keep`, in their order (a queryset `.filter`). */
  function Filter<T(!new)>(s: seq<T>, keep: T -> bool): (r: seq<T>)
    ensures |r| <= |s|
    ensures forall x :: x in r <==> x in s && keep(x)
  {
    if s == [] then [] else (if keep(s[0]) then [s[0]] else []) + Filter(s[1..], keep)
  }

  lemma {:induction false} FilterAppend<T(!new)>(a: seq<T>, b: seq<T>, keep: T -> bool)
    ensures Filter(a + b, keep) == Filter(a, keep) + Filter(b, keep)
  {
    if a == [] {
      assert a + b == b;
    } else {
      assert (a + b)[1..] == a[1..] + b;
      FilterAppend(a[1..], b, keep);
    }
  }

  lemma {:induction false} FilterKeepsAll<T(!new)>(s: seq<T>, keep: T -> bool)
    requires forall x :: x in s ==> keep(x)
    ensures Filter(s, keep) == s
  {
    if s != [] {
      FilterKeepsAll(s[1..], keep);
    }
  }

  /** Taking out the element at index `m` leaves the rest of the multiset. */
  lemma RemoveAtMultiset<T>(s: seq<T>, m: nat)
    requires m < |s|
    ensures multiset(s) == multiset(s[..m] + s[m + 1..]) + multiset{s[m]}
  {
    assert s == s[..m] + [s[m]] + s[m + 1..];
  }

  /** Filtering around the element at index `m`. */
  lemma FilterAround<T(!new)>(s: seq<T>, m: nat, keep: T -> bool)
    requires m < |s|
    ensures Filter(s, keep) == Filter(s[..m], keep) + (Filter([s[m]], keep) + Filter(s[m + 1..], keep))
    ensures Filter(s[..m] + s[m + 1..], keep) == Filter(s[..m], keep) + Filter(s[m + 1..], keep)
  {
    SplitAt(s, m);
    FilterAppend3(s[..m], [s[m]], s[m + 1..], keep);
    FilterAppend(s[..m], s[m + 1..], keep);
  }

  /** One more element at the end of the prefix that a loop has filtered. */
  lemma FilterSnoc<T(!new)>(s: seq<T>, k: nat, keep: T -> bool)
    requires k < |s|
    ensures Filter(s[..k + 1], keep) == Filter(s[..k], keep) + (if keep(s[k]) then [s[k]] else [])
  {
    TakeSnoc(s, k);
    FilterAppend(s[..k], [s[k]], keep);
    FilterOne(s[k], keep);
  }

  lemma FilterOne<T(!new)>(x: T, keep: T -> bool)
    ensures Filter([x], keep) == if keep(x) then [x] else []
  {
    assert [x][1..] == [];
  }

  lemma TakeSnoc<T>(s: seq<T>, k: nat)
    requires k < |s|
    ensures s[..k + 1] == s[..k] + [s[k]]
  {
  }

  lemma FilterNone<T(!new)>(s: seq<T>, keep: T -> bool)
    requires forall x :: x in s ==> !keep(x)
    ensures Filter(s, keep) == []
  {
    if Filter(s, keep) != [] {
      assert Filter(s, keep)[0] in Filter(s, keep);
    }
  }

  lemma SplitAt<T>(s: seq<T>, m: nat)
    requires m < |s|
    ensures s == s[..m] + ([s[m]] + s[m + 1..])
  {
  }

  lemma FilterAppend3<T(!new)>(a: seq<T>, b: seq<T>, c: seq<T>, keep: T -> bool)
    ensures Filter(a + (b + c), keep) == Filter(a, keep) + (Filter(b, keep) + Filter(c, keep))
  {
    FilterAppend(a, b + c, keep);
    FilterAppend(b, c, keep);
  }

  /** No two rows of `s` share a key. */
  ghost predicate Distinct<T, K>(s: seq<T>, key: T -> K) {
    forall i, j :: 0 <= i < j < |s| ==> key(s[i]) != key(s[j])
  }

  lemma {:induction false} FilterDistinct<T(!new), K>(s: seq<T>, keep: T -> bool, key: T -> K)
    requires Distinct(s, key)
    ensures Distinct(Filter(s, keep), key)
  {
    if s != [] {
      assert Distinct(s[1..], key) by {
        forall i, j | 0 <= i < j < |s[1..]| ensures key(s[1..][i]) != key(s[1..][j]) {
          assert s[1..][i] == s[i + 1] && s[1..][j] == s[j + 1];
        }
      }
      FilterDistinct(s[1..], keep, key);
      var rest := Filter(s[1..], keep);
      forall y | y in rest ensures key(y) != key(s[0]) {
        var k :| 0 <= k < |s[1..]| && s[1..][k] == y;
        assert s[k + 1] == y;
      }
      var r := Filter(s, keep);
      forall i, j | 0 <= i < j < |r| ensures key(r[i]) != key(r[j]) {
        if keep(s[0]) {
          assert r == [s[0]] + rest;
          if i == 0 {
            assert r[j] == rest[j - 1] && r[j] in rest;
          } else {
            assert r[i] == rest[i - 1] && r[j] == rest[j - 1];
          }
        } else {
          assert r == rest;
        }
      }
    }
  }

  /** Keys that select rows for the Distinct constraints below. */
  function ElectionId(e: Election): Id { e.id }
  function VoterId(v: Voter): Id { v.id }
  function VoterKey(v: Voter): (string, Id) { (v.sin, v.election) }
  function PositionId(p: Position): Id { p.id }
  function PositionKey(p: Position): (string, Id) { (p.name, p.election) }
  function CandidateId(c: Candidate): Id { c.id }
  function VoteId(r: VoteRow): Id { r.id }

  function ElectionIds(es: seq<Election>): set<Id> { set e | e in es :: e.id }
  function VoterIds(vs: seq<Voter>): set<Id> { set v | v in vs :: v.id }
  function PositionIds(ps: seq<Position>): set<Id> { set p | p in ps :: p.id }
  /** (candidate, position) pairs: a vote row names its candidate together with that candidate's position. */
  function CandidateKeys(cs: seq<Candidate>): set<(Id, Id)> { set c | c in cs :: (c.id, c.position) }

  // ---------------------------------------------------------------------------------------------
  // Integrity

  ghost predicate ElectionsValid(db: Db) {
    Distinct(db.elections, ElectionId)
  }

  /** Keys are unique, (sin, election) is unique, and every voter belongs to an election. */
  ghost predicate VotersValid(db: Db) {
    && Distinct(db.voters, VoterId)
    && Distinct(db.voters, VoterKey)
    && (forall v :: v in db.voters ==> v.id < db.nextVoterId && v.election in ElectionIds(db.elections))
  }

  /** Keys are unique, (name, election) is unique, and every position belongs to an election. */
  ghost predicate PositionsValid(db: Db) {
    && Distinct(db.positions, PositionId)
    && Distinct(db.positions, PositionKey)
    && (forall p :: p in db.positions ==> p.id < db.nextPositionId && p.election in ElectionIds(db.elections))
  }

  ghost predicate CandidatesValid(db: Db) {
    && Distinct(db.candidates, CandidateId)
    && (forall c :: c in db.candidates ==> c.position in PositionIds(db.positions))
  }

  /** Every vote row names an existing voter, position and candidate, and its candidate stands for
      its position. The last part is no database constraint: the views keep it, since they look a
      candidate up under the position they store with it. */
  ghost predicate VotesValid(db: Db) {
    && Distinct(db.votes, VoteId)
    && forall r :: r in db.votes ==>
         && r.id < db.nextVoteId
         && r.voter in VoterIds(db.voters)
         && r.position in PositionIds(db.positions)
         && (r.candidate, r.position) in CandidateKeys(db.candidates)
  }

  ghost predicate Valid(db: Db) {
    ElectionsValid(db) && VotersValid(db) && PositionsValid(db) && CandidatesValid(db) && VotesValid(db)
  }

  /** Tables with one election, voter, position and candidate, and two identical selections. */
  function Sample(): Db {
    Db([Election(1, "e")], [Voter(1, 1, "s", false)], [Position(1, 1, "p", 0, 7)], [Candidate(1, "c", 1)],
       [VoteRow(1, 1, 1, 1), VoteRow(2, 1, 1, 1)], 2, 2, 3)
  }

  lemma SampleValid()
    ensures Valid(Sample())
  {
    SampleRowsValid();
    SampleVotesValid();
  }

  lemma SampleRowsValid()
    ensures var db := Sample(); ElectionsValid(db) && VotersValid(db) && PositionsValid(db) && CandidatesValid(db)
  {
    var db := Sample();
    assert 1 in ElectionIds(db.elections) by { assert db.elections[0] in db.elections; }
    assert 1 in PositionIds(db.positions) by { assert db.positions[0] in db.positions; }
  }

  lemma SampleVotesValid()
    ensures VotesValid(Sample())
  {
    var db := Sample();
    assert 1 in VoterIds(db.voters) by { assert db.voters[0] in db.voters; }
    assert 1 in PositionIds(db.positions) by { assert db.positions[0] in db.positions; }
    assert (1, 1) in CandidateKeys(db.candidates) by { assert db.candidates[0] in db.candidates; }
  }

  /** What the schema leaves open: one voter may hold two identical selections, `max_vote` may be
      below 1, and an election's priorities need not be 1..N. */
  lemma SchemaAllows()
    ensures exists db: Db ::
              && Valid(db) && |db.votes| == 2 && |db.positions| == 1
              && db.votes[0].(id := 0) == db.votes[1].(id := 0)
              && db.positions[0].maxVote < 1 && !Dense(db.positions, db.positions[0].election)
  {
    SampleValid();
    var db := Sample();
    assert |PositionsOf(db.positions, 1)| <= 1;
    assert db.votes[0].(id := 0) == db.votes[1].(id := 0);
  }

  // ---------------------------------------------------------------------------------------------
  // Lookups (`Model.objects.get(...)`)

  function FindElection(es: seq<Election>, id: int): (r: Option<Election>)
    ensures r.Some? ==> r.value in es && r.value.id == id
    ensures r.None? ==> forall e :: e in es ==> e.id != id
  {
    if es == [] then None
    else if es[0].id == id then Some(es[0])
    else FindElection(es[1..], id)
  }

  /** Index of the first voter with key `id`. */
  function VoterAt(vs: seq<Voter>, id: Id): (r: Option<nat>)
    ensures r.Some? ==> r.value < |vs| && vs[r.value].id == id
    ensures r.None? ==> forall v :: v in vs ==> v.id != id
  {
    if vs == [] then None
    else if vs[0].id == id then Some(0)
    else match VoterAt(vs[1..], id)
      case Some(i) => Some(i + 1)
      case None => None
  }

  /** Index of the first voter registered under (sin, election). */
  function VoterBySin(vs: seq<Voter>, sin: string, election: Id): (r: Option<nat>)
    ensures r.Some? ==> r.value < |vs| && vs[r.value].sin == sin && vs[r.value].election == election
    ensures r.None? ==> forall v :: v in vs ==> !(v.sin == sin && v.election == election)
  {
    if vs == [] then None
    else if vs[0].sin == sin && vs[0].election == election then Some(0)
    else match VoterBySin(vs[1..], sin, election)
      case Some(i) => Some(i + 1)
      case None => None
  }

  /** Index of the first position with key `id`. */
  function PositionAt(ps: seq<Position>, id: int): (r: Option<nat>)
    ensures r.Some? ==> r.value < |ps| && ps[r.value].id == id
    ensures r.None? ==> forall p :: p in ps ==> p.id != id
  {
    if ps == [] then None
    else if ps[0].id == id then Some(0)
    else match PositionAt(ps[1..], id)
      case Some(i) => Some(i + 1)
      case None => None
  }

  /** `Candidate.objects.get(id=id, position=position)`. */
  function FindCandidate(cs: seq<Candidate>, id: int, position: Id): (r: Option<Candidate>)
    ensures r.Some? ==> r.value in cs && r.value.id == id && r.value.position == position
    ensures r.None? ==> forall c :: c in cs ==> !(c.id == id && c.position == position)
  {
    if cs == [] then None
    else if cs[0].id == id && cs[0].position == position then Some(cs[0])
    else FindCandidate(cs[1..], id, position)
  }

  // ---------------------------------------------------------------------------------------------
  // Querysets used by the views

  function PositionsOf(ps: seq<Position>, election: Id): seq<Position> {
    Filter(ps, (p: Position) => p.election == election)
  }

  function CandidatesOf(cs: seq<Candidate>, position: Id): seq<Candidate> {
    Filter(cs, (c: Candidate) => c.position == position)
  }

  function OfVoter(voter: Id): VoteRow -> bool {
    (r: VoteRow) => r.voter == voter
  }

  function NotOfVoter(voter: Id): VoteRow -> bool {
    (r: VoteRow) => r.voter != voter
  }

  /** `Votes.objects.filter(voter=voter)`. */
  function RowsOfVoter(rows: seq<VoteRow>, voter: Id): seq<VoteRow> {
    Filter(rows, OfVoter(voter))
  }

  /** What that queryset's `.delete()` leaves. */
  function RowsNotOfVoter(rows: seq<VoteRow>, voter: Id): seq<VoteRow> {
    Filter(rows, NotOfVoter(voter))
  }

  function RowsOfCandidate(rows: seq<VoteRow>, candidate: Id): seq<VoteRow> {
    Filter(rows, (r: VoteRow) => r.candidate == candidate)
  }

  /** `Votes.objects.filter(candidate=candidate).count()`. */
  function CandidateVotes(rows: seq<VoteRow>, candidate: Id): nat {
    |RowsOfCandidate(rows, candidate)|
  }

  lemma CountsAdd(a: seq<VoteRow>, b: seq<VoteRow>, voter: Id, candidate: Id)
    ensures |RowsOfVoter(a + b, voter)| == |RowsOfVoter(a, voter)| + |RowsOfVoter(b, voter)|
    ensures CandidateVotes(a + b, candidate) == CandidateVotes(a, candidate) + CandidateVotes(b, candidate)
  {
    FilterAppend(a, b, OfVoter(voter));
    FilterAppend(a, b, (r: VoteRow) => r.candidate == candidate);
  }

  /** `if not election_id`: the session holds no election. `select_election` stores the posted key
      as a string and only for an election that exists, so a key that is present is truthy. */
  predicate NoElection(session: Option<Id>) {
    session.None?
  }

  // ---------------------------------------------------------------------------------------------
  // Ballot order

  /** The positions of election `e` carry the priorities 1..N, N their number, each once. The
      schema does not enforce this; `generate_ballot` establishes it and the admin views keep it. */
  ghost predicate Dense(ps: seq<Position>, e: Id) {
    && (forall i :: 0 <= i < |ps| && ps[i].election == e ==> 1 <= ps[i].priority <= |PositionsOf(ps, e)|)
    && (forall i, j :: 0 <= i < j < |ps| && ps[i].election == e && ps[j].election == e ==>
          ps[i].priority != ps[j].priority)
  }

  /** Two tables whose rows belong to the same elections, row by row, have as many positions in
      each election. */
  lemma {:induction false} SameElectionsCount(ps: seq<Position>, qs: seq<Position>, e: Id)
    requires |ps| == |qs| && forall i :: 0 <= i < |ps| ==> ps[i].election == qs[i].election
    ensures |PositionsOf(ps, e)| == |PositionsOf(qs, e)|
  {
    if ps != [] {
      SameElectionsCount(ps[1..], qs[1..], e);
    }
  }

  /** Appending a position adds one to its election's count. */
  lemma AppendCount(ps: seq<Position>, p: Position, e: Id)
    ensures |PositionsOf(ps + [p], e)| == |PositionsOf(ps, e)| + (if p.election == e then 1 else 0)
  {
    FilterAppend(ps, [p], (q: Position) => q.election == e);
  }

  // ---------------------------------------------------------------------------------------------
  // Cascade deletes (on_delete=CASCADE)

  /** Deleting a voter deletes its vote rows. */
  function DeleteVoter(db: Db, id: Id): (r: Db)
    ensures forall v :: v in r.voters <==> v in db.voters && v.id != id
    ensures forall x :: x in r.votes <==> x in db.votes && x.voter != id
    ensures r.elections == db.elections && r.positions == db.positions && r.candidates == db.candidates
    ensures (r.nextVoterId, r.nextPositionId, r.nextVoteId) == (db.nextVoterId, db.nextPositionId, db.nextVoteId)
  {
    db.(voters := Filter(db.voters, (v: Voter) => v.id != id), votes := RowsNotOfVoter(db.votes, id))
  }

  /** Deleting a candidate deletes the vote rows that name it. */
  function DeleteCandidate(db: Db, id: Id): (r: Db)
    ensures forall c :: c in r.candidates <==> c in db.candidates && c.id != id
    ensures forall x :: x in r.votes <==> x in db.votes && x.candidate != id
    ensures r.elections == db.elections && r.voters == db.voters && r.positions == db.positions
    ensures (r.nextVoterId, r.nextPositionId, r.nextVoteId) == (db.nextVoterId, db.nextPositionId, db.nextVoteId)
  {
    db.(candidates := Filter(db.candidates, (c: Candidate) => c.id != id),
        votes := Filter(db.votes, (x: VoteRow) => x.candidate != id))
  }

  /** Deleting a position deletes its candidates, and the vote rows that name the position or one
      of those candidates. */
  function DeletePosition(db: Db, id: Id): (r: Db)
    ensures forall p :: p in r.positions <==> p in db.positions && p.id != id
    ensures forall c :: c in r.candidates <==> c in db.candidates && c.position != id
    ensures forall x :: x in r.votes <==>
              x in db.votes && x.position != id && (x.candidate, id) !in CandidateKeys(db.candidates)
    ensures r.elections == db.elections && r.voters == db.voters
    ensures (r.nextVoterId, r.nextPositionId, r.nextVoteId) == (db.nextVoterId, db.nextPositionId, db.nextVoteId)
  {
    var gone := CandidateKeys(db.candidates);
    db.(positions := Filter(db.positions, (p: Position) => p.id != id),
        candidates := Filter(db.candidates, (c: Candidate) => c.position != id),
        votes := Filter(db.votes, (x: VoteRow) => x.position != id && (x.candidate, id) !in gone))
  }

  /** Deleting an election deletes its voters and positions, and through them their candidates and
      vote rows. */
  function DeleteElection(db: Db, id: Id): (r: Db)
    ensures forall e :: e in r.elections <==> e in db.elections && e.id != id
    ensures forall v :: v in r.voters <==> v in db.voters && v.election != id
    ensures forall p :: p in r.positions <==> p in db.positions && p.election != id
    ensures forall c :: c in r.candidates <==> c in db.candidates && c.position in PositionIds(r.positions)
    ensures forall x :: x in r.votes <==>
              && x in db.votes && x.voter in VoterIds(r.voters) && x.position in PositionIds(r.positions)
              && (x.candidate, x.position) in CandidateKeys(r.candidates)
    ensures (r.nextVoterId, r.nextPositionId, r.nextVoteId) == (db.nextVoterId, db.nextPositionId, db.nextVoteId)
  {
    var voters := Filter(db.voters, (v: Voter) => v.election != id);
    var positions := Filter(db.positions, (p: Position) => p.election != id);
    var kept := PositionIds(positions);
    var candidates := Filter(db.candidates, (c: Candidate) => c.position in kept);
    var voterIds, keys := VoterIds(voters), CandidateKeys(candidates);
    db.(elections := Filter(db.elections, (e: Election) => e.id != id),
        voters := voters, positions := positions, candidates := candidates,
        votes := Filter(db.votes, (x: VoteRow) =>
                   x.voter in voterIds && x.position in kept && (x.candidate, x.position) in keys))
  }

  lemma DeleteVoterValid(db: Db, id: Id)
    requires Valid(db)
    ensures Valid(DeleteVoter(db, id))
  {
    var r := DeleteVoter(db, id);
    FilterDistinct(db.voters, (v: Voter) => v.id != id, VoterId);
    FilterDistinct(db.voters, (v: Voter) => v.id != id, VoterKey);
    FilterDistinct(db.votes, (x: VoteRow) => x.voter != id, VoteId);
    forall x | x in r.votes ensures x.voter in VoterIds(r.voters) {
      var v :| v in db.voters && v.id == x.voter;
      assert v in r.voters;
    }
  }

  lemma DeleteCandidateValid(db: Db, id: Id)
    requires Valid(db)
    ensures Valid(DeleteCandidate(db, id))
  {
    var r := DeleteCandidate(db, id);
    FilterDistinct(db.candidates, (c: Candidate) => c.id != id, CandidateId);
    FilterDistinct(db.votes, (x: VoteRow) => x.candidate != id, VoteId);
    forall x | x in r.votes ensures (x.candidate, x.position) in CandidateKeys(r.candidates) {
      var c :| c in db.candidates && (c.id, c.position) == (x.candidate, x.position);
      assert c in r.candidates;
    }
  }

  lemma DeletePositionValid(db: Db, id: Id)
    requires Valid(db)
    ensures Valid(DeletePosition(db, id))
  {
    var r := DeletePosition(db, id);
    var gone := CandidateKeys(db.candidates);
    FilterDistinct(db.positions, (p: Position) => p.id != id, PositionId);
    FilterDistinct(db.positions, (p: Position) => p.id != id, PositionKey);
    FilterDistinct(db.candidates, (c: Candidate) => c.position != id, CandidateId);
    FilterDistinct(db.votes, (x: VoteRow) => x.position != id && (x.candidate, id) !in gone, VoteId);
    forall c | c in r.candidates ensures c.position in PositionIds(r.positions) {
      var p :| p in db.positions && p.id == c.position;
      assert p in r.positions;
    }
    forall x | x in r.votes
      ensures x.position in PositionIds(r.positions)
      ensures (x.candidate, x.position) in CandidateKeys(r.candidates)
    {
      var p :| p in db.positions && p.id == x.position;
      assert p in r.positions;
      var c :| c in db.candidates && (c.id, c.position) == (x.candidate, x.position);
      assert c in r.candidates;
    }
  }

  lemma DeleteElectionValid(db: Db, id: Id)
    requires Valid(db)
    ensures Valid(DeleteElection(db, id))
  {
    var r := DeleteElection(db, id);
    var voters := Filter(db.voters, (v: Voter) => v.election != id);
    var positions := Filter(db.positions, (p: Position) => p.election != id);
    var kept := PositionIds(positions);
    var candidates := Filter(db.candidates, (c: Candidate) => c.position in kept);
    var voterIds, keys := VoterIds(voters), CandidateKeys(candidates);
    FilterDistinct(db.elections, (e: Election) => e.id != id, ElectionId);
    FilterDistinct(db.voters, (v: Voter) => v.election != id, VoterId);
    FilterDistinct(db.voters, (v: Voter) => v.election != id, VoterKey);
    FilterDistinct(db.positions, (p: Position) => p.election != id, PositionId);
    FilterDistinct(db.positions, (p: Position) => p.election != id, PositionKey);
    FilterDistinct(db.candidates, (c: Candidate) => c.position in kept, CandidateId);
    FilterDistinct(db.votes, (x: VoteRow) =>
      x.voter in voterIds && x.position in kept && (x.candidate, x.position) in keys, VoteId);
    forall v | v in r.voters ensures v.election in ElectionIds(r.elections) {
      var e :| e in db.elections && e.id == v.election;
      assert e in r.elections;
    }
    forall p | p in r.positions ensures p.election in ElectionIds(r.elections) {
      var e :| e in db.elections && e.id == p.election;
      assert e in r.elections;
    }
  }

  // ---------------------------------------------------------------------------------------------
  // The database the views read and write

  /** The tables as mutable state. Views change them in place, row by row. */
  class Store {
    var elections: seq<Election>
    var voters: seq<Voter>
    var positions: seq<Position>
    var candidates: seq<Candidate>
    var votes: seq<VoteRow>
    var nextVoterId: Id
    var nextPositionId: Id
    var nextVoteId: Id

    constructor (db: Db)
      ensures Tables() == db
    {
      elections, voters, positions, candidates, votes := db.elections, db.voters, db.positions, db.candidates, db.votes;
      nextVoterId, nextPositionId, nextVoteId := db.nextVoterId, db.nextPositionId, db.nextVoteId;
    }

    /** The current contents of every table. */
    function Tables(): Db
      reads this
    {
      Db(elections, voters, positions, candidates, votes, nextVoterId, nextPositionId, nextVoteId)
    }
  }
}
