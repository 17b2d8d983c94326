/** The administrator's bulk operations (administrator/views.py): moving a position on the ballot,
    resetting an election's votes, adding a voter and adding a position. */
module Admin {
  import opened Models
  import opened Recording

  // ---------------------------------------------------------------------------------------------
  // update_ballot_position

  /** The JSON reply: the `error` flag and the message. */
  datatype MoveReply = MoveReply(error: bool, message: string)

  /** One row of `Position.objects.filter(priority=from, election_id=e).update(priority=to)`. */
  function Bump(p: Position, e: Id, from: int, to: int): Position {
    if p.election == e && p.priority == from then p.(priority := to) else p
  }

  /** The bulk update, applied to every row. */
  function Reprioritize(ps: seq<Position>, e: Id, from: int, to: int): seq<Position> {
    seq(|ps|, j requires 0 <= j < |ps| => Bump(ps[j], e, from, to))
  }

  /** `update_ballot_position(position_id, up_or_down)`: "up" trades places with the position one
      priority higher, any other direction with the one below; the guards refuse to leave 1..N.
      A missing position is reported with the exception's text and `error` still false. */
  function Move(ps: seq<Position>, id: int, upOrDown: string): (seq<Position>, MoveReply) {
    match PositionAt(ps, id)
    case None => (ps, MoveReply(false, "Position matching query does not exist."))
    case Some(i) =>
      var pos := ps[i];
      var e := pos.election;
      if upOrDown == "up" then
        var priority := pos.priority - 1;
        if priority == 0 then (ps, MoveReply(true, "This position is already at the top"))
        else (Reprioritize(ps, e, priority, priority + 1)[i := pos.(priority := priority)], MoveReply(false, "Moved Up"))
      else
        var priority := pos.priority + 1;
        if priority > |PositionsOf(ps, e)| then (ps, MoveReply(true, "This position is already at the bottom"))
        else (Reprioritize(ps, e, priority, priority - 1)[i := pos.(priority := priority)], MoveReply(false, "Moved Down"))
  }

  /** The view: it runs the bulk update row by row, then saves the moved position. */
  method UpdateBallotPosition(store: Store, positionId: int, upOrDown: string) returns (reply: MoveReply)
    modifies store
    ensures (store.positions, reply) == Move(old(store.positions), positionId, upOrDown)
    ensures store.Tables() == old(store.Tables()).(positions := store.positions)
  {
    var ps := store.positions;
    var found := PositionAt(ps, positionId);
    if found.None? {
      return MoveReply(false, "Position matching query does not exist.");
    }
    var i := found.value;
    var pos := ps[i];
    var e := pos.election;
    var from, to;
    if upOrDown == "up" {
      if pos.priority - 1 == 0 {
        return MoveReply(true, "This position is already at the top");
      }
      from, to := pos.priority - 1, pos.priority;
      reply := MoveReply(false, "Moved Up");
    } else {
      if pos.priority + 1 > |PositionsOf(ps, e)| {
        return MoveReply(true, "This position is already at the bottom");
      }
      from, to := pos.priority + 1, pos.priority;
      reply := MoveReply(false, "Moved Down");
    }
    var updated: seq<Position> := [];
    var k := 0;
    while k < |ps|
      invariant 0 <= k <= |ps|
      invariant |updated| == k
      invariant forall j :: 0 <= j < k ==> updated[j] == Bump(ps[j], e, from, to)
    {
      updated := updated + [Bump(ps[k], e, from, to)];
      k := k + 1;
    }
    assert updated == Reprioritize(ps, e, from, to);
    store.positions := updated[i := pos.(priority := from)];
  }

  /** The guards: "up" fails exactly at priority 1 and "down" exactly past the election's count;
      a failed or missing move changes nothing. */
  lemma MoveGuards(ps: seq<Position>, id: int, upOrDown: string)
    ensures PositionAt(ps, id).None? ==> Move(ps, id, upOrDown) == (ps, MoveReply(false, "Position matching query does not exist."))
    ensures PositionAt(ps, id).Some? ==>
              var p := ps[PositionAt(ps, id).value];
              && (Move(ps, id, upOrDown).1.error <==>
                    if upOrDown == "up" then p.priority == 1 else p.priority + 1 > |PositionsOf(ps, p.election)|)
              && (Move(ps, id, upOrDown).1.error ==> Move(ps, id, upOrDown).0 == ps)
  {
  }

  /** A move changes priorities only: the moved position takes the adjacent priority, and the only
      other rows that change are those of the same election that held it, which take the moved
      position's old priority. Other elections are untouched. */
  lemma MoveIsSwap(ps: seq<Position>, id: int, upOrDown: string)
    requires PositionAt(ps, id).Some?
    ensures var r := Move(ps, id, upOrDown).0;
            var i := PositionAt(ps, id).value;
            var p := ps[i];
            var target := if upOrDown == "up" then p.priority - 1 else p.priority + 1;
            && |r| == |ps|
            && (forall j :: 0 <= j < |ps| ==> r[j] == ps[j].(priority := r[j].priority))
            && (forall j :: 0 <= j < |ps| && ps[j].election != p.election ==> r[j] == ps[j])
            && (!Move(ps, id, upOrDown).1.error ==>
                  && r[i].priority == target
                  && forall j :: 0 <= j < |ps| && j != i ==>
                       r[j].priority == (if ps[j].election == p.election && ps[j].priority == target then p.priority else ps[j].priority))
  {
  }

  /** A dense 1..N ordering stays dense under any move, in every election. */
  lemma MoveKeepsDense(ps: seq<Position>, id: int, upOrDown: string, e: Id)
    requires Dense(ps, e)
    ensures Dense(Move(ps, id, upOrDown).0, e)
  {
    var r := Move(ps, id, upOrDown).0;
    if PositionAt(ps, id).Some? && !Move(ps, id, upOrDown).1.error {
      MoveIsSwap(ps, id, upOrDown);
      SameElectionsCount(ps, r, e);
      var i := PositionAt(ps, id).value;
      if ps[i].election == e {
        forall a, b | 0 <= a < b < |r| && r[a].election == e && r[b].election == e
          ensures r[a].priority != r[b].priority
        {
          assert ps[a].priority != ps[b].priority;
        }
      }
    }
  }

  /** Moving keeps every table constraint: only priorities change. */
  lemma MoveValid(db: Db, id: int, upOrDown: string)
    requires Valid(db)
    ensures Valid(db.(positions := Move(db.positions, id, upOrDown).0))
  {
    if PositionAt(db.positions, id).Some? {
      MoveIsSwap(db.positions, id, upOrDown);
      PrioritiesOnlyValid(db, Move(db.positions, id, upOrDown).0);
    }
  }

  /** Changing nothing but priorities keeps every table constraint. */
  lemma PrioritiesOnlyValid(db: Db, r: seq<Position>)
    requires Valid(db)
    requires |r| == |db.positions|
    requires forall j :: 0 <= j < |r| ==> r[j] == db.positions[j].(priority := r[j].priority)
    ensures Valid(db.(positions := r))
  {
    var ps := db.positions;
    forall a, b | 0 <= a < b < |r| ensures PositionId(r[a]) != PositionId(r[b]) && PositionKey(r[a]) != PositionKey(r[b]) {
      assert r[a] == ps[a].(priority := r[a].priority) && r[b] == ps[b].(priority := r[b].priority);
    }
    assert PositionIds(r) == PositionIds(ps) by {
      forall x | x in PositionIds(ps) ensures x in PositionIds(r) {
        var j :| 0 <= j < |ps| && ps[j].id == x;
        assert r[j] in r;
      }
      forall x | x in PositionIds(r) ensures x in PositionIds(ps) {
        var j :| 0 <= j < |r| && r[j].id == x;
        assert ps[j] in ps;
      }
    }
    forall p | p in r ensures p.id < db.nextPositionId && p.election in ElectionIds(db.elections) {
      var j :| 0 <= j < |r| && r[j] == p;
      assert ps[j] in ps;
    }
  }

  // ---------------------------------------------------------------------------------------------
  // resetVote

  /** Where a bulk view redirects. */
  datatype Redirect = ToAdminDashboard | ToViewVotes

  /** A vote row keeps its place unless its position belongs to election `e`. */
  function OutsideElection(ps: seq<Position>, e: Id): VoteRow -> bool {
    var inside := PositionIds(PositionsOf(ps, e));
    (x: VoteRow) => x.position !in inside
  }

  /** `Voter.objects.filter(election_id=e).update(voted=False)`, row by row. */
  function ClearVoted(vs: seq<Voter>, e: Id): seq<Voter> {
    seq(|vs|, j requires 0 <= j < |vs| => if vs[j].election == e then vs[j].(voted := false) else vs[j])
  }

  /** `resetVote` for election `e`: the votes cast under its positions are deleted and its voters
      may vote again. */
  function ResetVotes(db: Db, e: Id): Db {
    db.(votes := Filter(db.votes, OutsideElection(db.positions, e)), voters := ClearVoted(db.voters, e))
  }

  method ResetVote(store: Store, session: Option<Id>) returns (r: Redirect)
    modifies store
    ensures NoElection(session) ==> r == ToAdminDashboard && store.Tables() == old(store.Tables())
    ensures !NoElection(session) ==> r == ToViewVotes && store.Tables() == ResetVotes(old(store.Tables()), session.value)
  {
    if NoElection(session) {
      return ToAdminDashboard;
    }
    DeleteElectionVotes(store, session.value);
    ClearElectionVoters(store, session.value);
    r := ToViewVotes;
  }

  /** `Votes.objects.filter(position__election_id=e).delete()`. */
  method DeleteElectionVotes(store: Store, e: Id)
    modifies store
    ensures store.votes == Filter(old(store.votes), OutsideElection(old(store.positions), e))
    ensures store.Tables() == old(store.Tables()).(votes := store.votes)
  {
    var kept := KeepRows(store.votes, OutsideElection(store.positions, e));
    store.votes := kept;
  }

  /** `Voter.objects.filter(election_id=e).update(voted=False)`. */
  method ClearElectionVoters(store: Store, e: Id)
    modifies store
    ensures store.Tables() == old(store.Tables()).(voters := ClearVoted(old(store.voters), e))
  {
    var vs := store.voters;
    var j := 0;
    while j < |vs|
      invariant 0 <= j <= |vs| && |vs| == |store.voters|
      invariant forall t :: 0 <= t < |vs| ==>
                  vs[t] == if t < j then ClearVoted(store.voters, e)[t] else store.voters[t]
    {
      if vs[j].election == e {
        vs := vs[j := vs[j].(voted := false)];
      }
      j := j + 1;
    }
    assert vs == ClearVoted(store.voters, e);
    store.voters := vs;
  }

  /** Exactly the rows cast under the election's positions go, and exactly its voters are marked
      as not having voted; the other tables and voters stay as they were. */
  lemma ResetVotesEffect(db: Db, e: Id)
    ensures var r := ResetVotes(db, e);
            && (forall x :: x in r.votes <==> x in db.votes && !(exists p :: p in db.positions && p.id == x.position && p.election == e))
            && |r.voters| == |db.voters|
            && (forall j :: 0 <= j < |db.voters| ==>
                  r.voters[j] == if db.voters[j].election == e then db.voters[j].(voted := false) else db.voters[j])
            && r.elections == db.elections && r.positions == db.positions && r.candidates == db.candidates
  {
    var r := ResetVotes(db, e);
    forall x ensures x in r.votes <==> x in db.votes && !(exists p :: p in db.positions && p.id == x.position && p.election == e) {
      if exists p :: p in db.positions && p.id == x.position && p.election == e {
        var p :| p in db.positions && p.id == x.position && p.election == e;
        assert p in PositionsOf(db.positions, e);
      }
    }
  }

  /** After a reset, every candidate standing in the election has no votes left, so the report
      shows "No one voted for this yet." for its single-vote positions. */
  lemma ResetClearsTally(db: Db, e: Id, c: Candidate)
    requires Valid(db) && c in db.candidates
    requires exists p :: p in db.positions && p.id == c.position && p.election == e
    ensures CandidateVotes(ResetVotes(db, e).votes, c.id) == 0
  {
    var r := ResetVotes(db, e);
    var p :| p in db.positions && p.id == c.position && p.election == e;
    assert p in PositionsOf(db.positions, e);
    var i :| 0 <= i < |db.candidates| && db.candidates[i] == c;
    forall x | x in r.votes ensures x.candidate != c.id {
      assert x in db.votes && x.position !in PositionIds(PositionsOf(db.positions, e));
      var c' :| c' in db.candidates && (c'.id, c'.position) == (x.candidate, x.position);
      var j :| 0 <= j < |db.candidates| && db.candidates[j] == c';
      assert c'.position != c.position;
      assert i != j;
    }
    FilterNone(r.votes, (x: VoteRow) => x.candidate == c.id);
  }

  /** A reset keeps every table constraint. */
  lemma ResetValid(db: Db, e: Id)
    requires Valid(db)
    ensures Valid(ResetVotes(db, e))
  {
    var kept := db.(votes := Filter(db.votes, OutsideElection(db.positions, e)));
    FilterDistinct(db.votes, OutsideElection(db.positions, e), VoteId);
    assert Valid(kept);
    ClearVotedValid(kept, e);
    assert ResetVotes(db, e) == kept.(voters := ClearVoted(kept.voters, e));
  }

  /** Unmarking an election's voters keeps every table constraint. */
  lemma ClearVotedValid(db: Db, e: Id)
    requires Valid(db)
    ensures Valid(db.(voters := ClearVoted(db.voters, e)))
  {
    var vs := ClearVoted(db.voters, e);
    assert forall j :: 0 <= j < |vs| ==> vs[j].id == db.voters[j].id && VoterKey(vs[j]) == VoterKey(db.voters[j])
                                         && vs[j].election == db.voters[j].election;
    assert VoterIds(vs) == VoterIds(db.voters) by {
      forall x | x in VoterIds(db.voters) ensures x in VoterIds(vs) {
        var j :| 0 <= j < |db.voters| && db.voters[j].id == x;
        assert vs[j] in vs;
      }
    }
  }

  // ---------------------------------------------------------------------------------------------
  // voters (POST branch): add a voter under (sin, election) uniqueness

  datatype VoterReply =
    | SelectElectionFirst   // "Please select an election first", redirect to the dashboard
    | VoterList             // not a POST: the list is rendered
    | ProvideSin            // "Please provide a SIN"
    | SinExists             // "SIN already exists in this election"
    | ElectionGone          // Election.objects.get raises DoesNotExist: server error
    | VoterCreated          // "New voter created"

  function AddVoter(db: Db, session: Option<Id>, isPost: bool, sin: Option<string>): (Db, VoterReply) {
    if NoElection(session) then (db, SelectElectionFirst)
    else if !isPost then (db, VoterList)
    else if sin.None? || sin.value == "" then (db, ProvideSin)
    else if VoterBySin(db.voters, sin.value, session.value).Some? then (db, SinExists)
    else if FindElection(db.elections, session.value).None? then (db, ElectionGone)
    else
      (db.(voters := db.voters + [Voter(db.nextVoterId, session.value, sin.value, false)],
           nextVoterId := db.nextVoterId + 1),
       VoterCreated)
  }

  method AddVoterView(store: Store, session: Option<Id>, isPost: bool, sin: Option<string>) returns (reply: VoterReply)
    modifies store
    ensures (store.Tables(), reply) == AddVoter(old(store.Tables()), session, isPost, sin)
  {
    if NoElection(session) {
      return SelectElectionFirst;
    }
    if !isPost {
      return VoterList;
    }
    if sin.None? || sin.value == "" {
      return ProvideSin;
    }
    var e := session.value;
    if VoterBySin(store.voters, sin.value, e).Some? {
      return SinExists;
    }
    if FindElection(store.elections, e).None? {
      return ElectionGone;
    }
    store.voters := store.voters + [Voter(store.nextVoterId, e, sin.value, false)];
    store.nextVoterId := store.nextVoterId + 1;
    reply := VoterCreated;
  }

  /** A voter is created exactly for a POST with a selected, existing election and a non-empty SIN
      not yet registered there; it is appended with `voted` false. Every refusal changes nothing. */
  lemma AddVoterOutcome(db: Db, session: Option<Id>, isPost: bool, sin: Option<string>)
    ensures var (r, reply) := AddVoter(db, session, isPost, sin);
            && (reply == VoterCreated <==>
                  && !NoElection(session) && isPost && sin.Some? && sin.value != ""
                  && (forall v :: v in db.voters ==> !(v.sin == sin.value && v.election == session.value))
                  && (exists x :: x in db.elections && x.id == session.value))
            && (reply == VoterCreated ==>
                  r == db.(voters := db.voters + [Voter(db.nextVoterId, session.value, sin.value, false)],
                           nextVoterId := db.nextVoterId + 1))
            && (reply != VoterCreated ==> r == db)
  {
    if !NoElection(session) && isPost && sin.Some? && sin.value != "" && VoterBySin(db.voters, sin.value, session.value).Some? {
      var i := VoterBySin(db.voters, sin.value, session.value).value;
      assert db.voters[i] in db.voters;
    }
  }

  /** Adding a voter keeps every table constraint; in particular (sin, election) stays unique. */
  lemma AddVoterValid(db: Db, session: Option<Id>, isPost: bool, sin: Option<string>)
    requires Valid(db)
    ensures Valid(AddVoter(db, session, isPost, sin).0)
  {
    var (r, reply) := AddVoter(db, session, isPost, sin);
    if reply == VoterCreated {
      AddVoterOutcome(db, session, isPost, sin);
      var v := Voter(db.nextVoterId, session.value, sin.value, false);
      var x :| x in db.elections && x.id == session.value;
      assert r.voters == db.voters + [v];
      forall a, b | 0 <= a < b < |r.voters| ensures VoterId(r.voters[a]) != VoterId(r.voters[b]) && VoterKey(r.voters[a]) != VoterKey(r.voters[b]) {
        if b == |db.voters| {
          assert r.voters[a] in db.voters;
        }
      }
      assert VoterIds(r.voters) == VoterIds(db.voters) + {v.id};
    }
  }

  // ---------------------------------------------------------------------------------------------
  // viewPositions (POST branch): add a position at the end of the ballot

  datatype PositionReply =
    | NoElectionSelected    // redirect to the dashboard
    | PositionList          // not a POST: the list is rendered
    | FormErrors            // "Form errors"
    | SaveFailed            // an IntegrityError from the save: server error
    | PositionCreated       // "New Position Created"

  /** The submitted form: whether `PositionForm.is_valid()` held, and its name and maximum
      number of votes. The form class is not part of this model, so its validity is an input. */
  datatype PositionForm = PositionForm(valid: bool, name: string, maxVote: int)

  function AddPosition(db: Db, session: Option<Id>, isPost: bool, form: PositionForm): (Db, PositionReply) {
    if NoElection(session) then (db, NoElectionSelected)
    else if !isPost then (db, PositionList)
    else if !form.valid then (db, FormErrors)
    else
      var e := session.value;
      var p := Position(db.nextPositionId, e, form.name, form.maxVote, |PositionsOf(db.positions, e)| + 1);
      if (exists q :: q in db.positions && q.name == form.name && q.election == e) || FindElection(db.elections, e).None?
      then (db, SaveFailed)
      else (db.(positions := db.positions + [p], nextPositionId := db.nextPositionId + 1), PositionCreated)
  }

  method AddPositionView(store: Store, session: Option<Id>, isPost: bool, form: PositionForm) returns (reply: PositionReply)
    modifies store
    ensures (store.Tables(), reply) == AddPosition(old(store.Tables()), session, isPost, form)
  {
    if NoElection(session) {
      return NoElectionSelected;
    }
    if !isPost {
      return PositionList;
    }
    if !form.valid {
      return FormErrors;
    }
    var e := session.value;
    var count := |PositionsOf(store.positions, e)|;
    var duplicate := false;
    var k := 0;
    while k < |store.positions|
      invariant 0 <= k <= |store.positions|
      invariant duplicate <==> exists q :: q in store.positions[..k] && q.name == form.name && q.election == e
    {
      assert store.positions[..k + 1] == store.positions[..k] + [store.positions[k]];
      if store.positions[k].name == form.name && store.positions[k].election == e {
        duplicate := true;
      }
      k := k + 1;
    }
    assert store.positions[..k] == store.positions;
    if duplicate || FindElection(store.elections, e).None? {
      return SaveFailed;
    }
    store.positions := store.positions + [Position(store.nextPositionId, e, form.name, form.maxVote, count + 1)];
    store.nextPositionId := store.nextPositionId + 1;
    reply := PositionCreated;
  }

  /** A new position is appended after the election's others, at priority count + 1. */
  lemma AddPositionAppends(db: Db, session: Option<Id>, isPost: bool, form: PositionForm)
    ensures var (r, reply) := AddPosition(db, session, isPost, form);
            && (reply == PositionCreated <==>
                  && !NoElection(session) && isPost && form.valid
                  && (forall q :: q in db.positions && q.election == session.value ==> q.name != form.name)
                  && (exists x :: x in db.elections && x.id == session.value))
            && (reply == PositionCreated ==>
                  && |r.positions| == |db.positions| + 1
                  && r.positions[..|db.positions|] == db.positions
                  && r.positions[|db.positions|] ==
                       Position(db.nextPositionId, session.value, form.name, form.maxVote, |PositionsOf(db.positions, session.value)| + 1))
            && (reply != PositionCreated ==> r == db)
  {
    var (r, reply) := AddPosition(db, session, isPost, form);
    if reply == PositionCreated {
      assert r.positions[..|db.positions|] == db.positions;
    }
  }

  /** Appending at count + 1 keeps a dense ordering dense, in every election. */
  lemma AddPositionKeepsDense(db: Db, session: Option<Id>, isPost: bool, form: PositionForm, e: Id)
    requires Dense(db.positions, e)
    ensures Dense(AddPosition(db, session, isPost, form).0.positions, e)
  {
    var (r, reply) := AddPosition(db, session, isPost, form);
    if reply == PositionCreated {
      var s := session.value;
      var p := Position(db.nextPositionId, s, form.name, form.maxVote, |PositionsOf(db.positions, s)| + 1);
      assert r.positions == db.positions + [p];
      AppendCount(db.positions, p, e);
    }
  }

  /** Adding a position keeps every table constraint; in particular (name, election) stays unique. */
  lemma AddPositionValid(db: Db, session: Option<Id>, isPost: bool, form: PositionForm)
    requires Valid(db)
    ensures Valid(AddPosition(db, session, isPost, form).0)
  {
    var (r, reply) := AddPosition(db, session, isPost, form);
    if reply == PositionCreated {
      var s := session.value;
      var p := Position(db.nextPositionId, s, form.name, form.maxVote, |PositionsOf(db.positions, s)| + 1);
      assert r.positions == db.positions + [p];
      var x :| x in db.elections && x.id == s;
      forall a, b | 0 <= a < b < |r.positions|
        ensures PositionId(r.positions[a]) != PositionId(r.positions[b]) && PositionKey(r.positions[a]) != PositionKey(r.positions[b])
      {
        if b == |db.positions| {
          assert r.positions[a] in db.positions;
        }
      }
      assert PositionIds(r.positions) == PositionIds(db.positions) + {p.id};
    }
  }
}
