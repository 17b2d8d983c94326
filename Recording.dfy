/** Saving vote rows and marking voters, shared by the web and the API ballot submissions
    (voting/views.py, voting/api_views.py): every selection becomes one `Votes` row with the next
    key, and the two submissions clean up differently afterwards. */
module Recording {
  import opened Models

  /** A selection as it is saved: the position and the candidate chosen for it. */
  type Pick = (Position, Candidate)

  function Tag(p: Position, cs: seq<Candidate>): (r: seq<Pick>)
    ensures |r| == |cs|
  {
    seq(|cs|, t requires 0 <= t < |cs| => (p, cs[t]))
  }

  /** The rows saved for `picks`, numbered from `next` on. */
  function NewRows(next: Id, voter: Id, picks: seq<Pick>): (r: seq<VoteRow>)
    ensures |r| == |picks|
  {
    seq(|picks|, t requires 0 <= t < |picks| => VoteRow(next + t, voter, picks[t].0.id, picks[t].1.id))
  }

  /** The tables after one `Votes(...).save()` per pick, in order. */
  function Saved(db: Db, voter: Id, picks: seq<Pick>): Db {
    db.(votes := db.votes + NewRows(db.nextVoteId, voter, picks), nextVoteId := db.nextVoteId + |picks|)
  }

  /** `voter.voted = True; voter.save()`. */
  function MarkVoted(vs: seq<Voter>, voter: Id): (r: seq<Voter>)
    ensures |r| == |vs|
  {
    seq(|vs|, j requires 0 <= j < |vs| => if vs[j].id == voter then vs[j].(voted := true) else vs[j])
  }

  /** Keeps the rows that a rollback `Votes.objects.filter(voter=voter, id__in=created).delete()`
      leaves, `created` being the keys from..to-1 this call allocated. */
  function NotCreated(voter: Id, from: Id, to: Id): VoteRow -> bool {
    (r: VoteRow) => !(r.voter == voter && from <= r.id < to)
  }

  /** One block of a preview: a position and the candidates shown for it. */
  datatype Line = Line(position: Position, candidates: seq<Candidate>)

  /** The rows a list of preview blocks stands for. */
  function Flatten(lines: seq<Line>): seq<Pick> {
    if lines == [] then [] else Tag(lines[0].position, lines[0].candidates) + Flatten(lines[1..])
  }

  lemma {:induction false} FlattenAppend(a: seq<Line>, b: seq<Line>)
    ensures Flatten(a + b) == Flatten(a) + Flatten(b)
  {
    if a == [] {
      assert a + b == b;
    } else {
      assert (a + b)[1..] == a[1..] + b;
      FlattenAppend(a[1..], b);
    }
  }

  /** Every pick names a position of `ps` and a candidate of `cs` standing for it. */
  ghost predicate PicksFrom(picks: seq<Pick>, ps: seq<Position>, cs: seq<Candidate>) {
    forall t :: 0 <= t < |picks| ==> picks[t].0 in ps && picks[t].1 in cs && picks[t].1.position == picks[t].0.id
  }

  lemma PicksAppend(a: seq<Pick>, b: seq<Pick>, ps: seq<Position>, cs: seq<Candidate>)
    requires PicksFrom(a, ps, cs) && PicksFrom(b, ps, cs)
    ensures PicksFrom(a + b, ps, cs)
  {
    forall t | 0 <= t < |a + b| ensures (a + b)[t].0 in ps && (a + b)[t].1 in cs && (a + b)[t].1.position == (a + b)[t].0.id {
      if t >= |a| {
        assert (a + b)[t] == b[t - |a|];
      }
    }
  }

  lemma PicksWiden(picks: seq<Pick>, ps: seq<Position>, qs: seq<Position>, cs: seq<Candidate>)
    requires PicksFrom(picks, ps, cs) && forall x :: x in ps ==> x in qs
    ensures PicksFrom(picks, qs, cs)
  {
  }

  lemma TagSnoc(p: Position, cs: seq<Candidate>, c: Candidate)
    ensures Tag(p, cs + [c]) == Tag(p, cs) + [(p, c)]
  {
  }

  /** Saving in two batches is saving once. */
  lemma SavedTwice(db: Db, voter: Id, a: seq<Pick>, b: seq<Pick>)
    ensures Saved(Saved(db, voter, a), voter, b) == Saved(db, voter, a + b)
  {
    var x := NewRows(db.nextVoteId, voter, a);
    var y := NewRows(db.nextVoteId + |a|, voter, b);
    assert x + y == NewRows(db.nextVoteId, voter, a + b);
  }

  /** The voter's rows after saving: those it had, then every new one. */
  lemma SavedRowsOfVoter(db: Db, voter: Id, picks: seq<Pick>)
    ensures RowsOfVoter(Saved(db, voter, picks).votes, voter) == RowsOfVoter(db.votes, voter) + NewRows(db.nextVoteId, voter, picks)
    ensures RowsNotOfVoter(Saved(db, voter, picks).votes, voter) == RowsNotOfVoter(db.votes, voter)
  {
    var rows := NewRows(db.nextVoteId, voter, picks);
    FilterAppend(db.votes, rows, OfVoter(voter));
    FilterAppend(db.votes, rows, NotOfVoter(voter));
    FilterKeepsAll(rows, OfVoter(voter));
    FilterNone(rows, NotOfVoter(voter));
  }

  /** Deleting the rows this call created gives back the table it started from, since every older
      row has a smaller key. */
  lemma RollbackRestores(db: Db, voter: Id, picks: seq<Pick>)
    requires forall r :: r in db.votes ==> r.id < db.nextVoteId
    ensures Filter(Saved(db, voter, picks).votes, NotCreated(voter, db.nextVoteId, db.nextVoteId + |picks|)) == db.votes
  {
    var keep := NotCreated(voter, db.nextVoteId, db.nextVoteId + |picks|);
    var rows := NewRows(db.nextVoteId, voter, picks);
    FilterAppend(db.votes, rows, keep);
    FilterKeepsAll(db.votes, keep);
    FilterNone(rows, keep);
  }

  /** Saving picks of existing positions and their own candidates keeps every table constraint. */
  lemma SavedValid(db: Db, voter: Id, picks: seq<Pick>)
    requires Valid(db) && voter in VoterIds(db.voters)
    requires PicksFrom(picks, db.positions, db.candidates)
    ensures Valid(Saved(db, voter, picks))
  {
    var r := Saved(db, voter, picks);
    var rows := NewRows(db.nextVoteId, voter, picks);
    forall a, b | 0 <= a < b < |r.votes| ensures VoteId(r.votes[a]) != VoteId(r.votes[b]) {
      if a < |db.votes| {
        assert r.votes[a] in db.votes;
      }
    }
    forall x | x in r.votes
      ensures && x.id < r.nextVoteId && x.voter in VoterIds(r.voters) && x.position in PositionIds(r.positions)
              && (x.candidate, x.position) in CandidateKeys(r.candidates)
    {
      if x !in db.votes {
        var t :| 0 <= t < |rows| && rows[t] == x;
        assert picks[t].0 in db.positions && picks[t].1 in db.candidates;
      }
    }
  }

  /** Deleting a voter's rows keeps every table constraint. */
  lemma DropVoterRowsValid(db: Db, voter: Id)
    requires Valid(db)
    ensures Valid(db.(votes := RowsNotOfVoter(db.votes, voter)))
  {
    FilterDistinct(db.votes, NotOfVoter(voter), VoteId);
  }

  /** Marking a voter keeps every table constraint. */
  lemma MarkVotedValid(db: Db, voter: Id)
    requires Valid(db)
    ensures Valid(db.(voters := MarkVoted(db.voters, voter)))
  {
    var vs := MarkVoted(db.voters, voter);
    assert forall j :: 0 <= j < |vs| ==> vs[j].id == db.voters[j].id && VoterKey(vs[j]) == VoterKey(db.voters[j])
                                         && vs[j].election == db.voters[j].election;
    assert VoterIds(vs) == VoterIds(db.voters) by {
      forall x | x in VoterIds(db.voters) ensures x in VoterIds(vs) {
        var j :| 0 <= j < |db.voters| && db.voters[j].id == x;
        assert vs[j] in vs;
      }
    }
  }

  // ---------------------------------------------------------------------------------------------
  // The writes, one statement each

  /** `Votes(candidate=c, voter=voter, position=p).save()`. */
  method SaveVote(store: Store, voter: Id, p: Position, c: Candidate)
    modifies store
    ensures store.Tables() == Saved(old(store.Tables()), voter, [(p, c)])
  {
    store.votes := store.votes + [VoteRow(store.nextVoteId, voter, p.id, c.id)];
    store.nextVoteId := store.nextVoteId + 1;
  }

  method MarkVoterVoted(store: Store, voter: Id)
    modifies store
    ensures store.Tables() == old(store.Tables()).(voters := MarkVoted(old(store.voters), voter))
  {
    store.voters := MarkVoted(store.voters, voter);
  }

  /** `Votes.objects.filter(voter=voter).delete()`. */
  method DeleteVoterRows(store: Store, voter: Id)
    modifies store
    ensures store.Tables() == old(store.Tables()).(votes := RowsNotOfVoter(old(store.votes), voter))
  {
    var kept := KeepRows(store.votes, NotOfVoter(voter));
    store.votes := kept;
  }

  /** `Votes.objects.filter(voter=voter, id__in=created).delete()`. */
  method DeleteCreatedRows(store: Store, voter: Id, from: Id, to: Id)
    modifies store
    ensures store.Tables() == old(store.Tables()).(votes := Filter(old(store.votes), NotCreated(voter, from, to)))
  {
    var kept := KeepRows(store.votes, NotCreated(voter, from, to));
    store.votes := kept;
  }

  /** The rows that survive a delete, collected by one pass over the table. */
  method KeepRows(rows: seq<VoteRow>, keep: VoteRow -> bool) returns (kept: seq<VoteRow>)
    ensures kept == Filter(rows, keep)
  {
    kept := [];
    var k := 0;
    while k < |rows|
      invariant 0 <= k <= |rows|
      invariant kept == Filter(rows[..k], keep)
    {
      FilterSnoc(rows, k, keep);
      if keep(rows[k]) {
        kept := kept + [rows[k]];
      }
      k := k + 1;
    }
    assert rows[..k] == rows;
  }
}
