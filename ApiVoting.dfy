/** The JSON ballot of the voter app (voting/api_views.py): `submit_ballot_api_view` records the
    signed-in voter's selections and rolls back the rows it created when it refuses them, and
    `preview_vote_api_view` reads the same payload back without writing. `slugify` and the
    integer coercion of string keys are parameters. */
module ApiVoting {
  import opened Models
  import opened Recording

  /** The JSON scalars a selection can hold. */
  datatype Scalar = JInt(n: int) | JStr(s: string) | JNull

  /** A selection: one scalar, or a list of them. */
  datatype Value = One(x: Scalar) | Many(xs: seq<Scalar>)

  /** `request.data['votes']`; a missing `votes` entry reads as the empty payload. */
  type Payload = map<string, Value>

  /** The signed-in account: its `user_type` and the key of the voter row it is linked to. */
  datatype User = User(userType: string, voter: Option<Id>)

  /** Python truthiness: zero, the empty string, `None` and the empty list are false. */
  predicate TruthyScalar(x: Scalar) {
    match x
    case JInt(n) => n != 0
    case JStr(s) => s != ""
    case JNull => false
  }

  predicate Truthy(v: Value) {
    match v
    case One(x) => TruthyScalar(x)
    case Many(xs) => xs != []
  }

  /** What `for candidate_id in value` walks over: a list's elements or a string's characters;
      `len` of a number raises a `TypeError`. */
  function Items(v: Value): (r: Option<seq<Scalar>>)
    ensures r.None? <==> v.One? && v.x.JInt?
    ensures v.Many? ==> r == Some(v.xs)
    ensures v.One? && v.x.JStr? ==> r.Some? && |r.value| == |v.x.s| && forall t :: 0 <= t < |r.value| ==> r.value[t] == JStr([v.x.s[t]])
  {
    match v
    case Many(xs) => Some(xs)
    case One(x) =>
      match x
      case JInt(_) => None
      case JStr(s) => Some(seq(|s|, t requires 0 <= t < |s| => JStr([s[t]])))
      case JNull => Some([])
  }

  /** The value a single-vote position reads: the scalar, or the first element of a list. */
  function First(v: Value): Scalar {
    match v
    case One(x) => x
    case Many(xs) => if xs == [] then JNull else xs[0]
  }

  /** `Candidate.objects.get(id=x, position=p)`: found, `DoesNotExist`, or a `ValueError` from a
      string key that does not coerce. `None` matches no row. */
  datatype Lookup = Hit(c: Candidate) | Miss | Raise

  function ApiLookup(cs: seq<Candidate>, p: Position, x: Scalar, parse: string -> Option<int>): (r: Lookup)
    ensures r.Hit? ==> r.c in cs && r.c.position == p.id
    ensures r.Raise? <==> x.JStr? && parse(x.s).None?
  {
    match x
    case JNull => Miss
    case JInt(n) => (match FindCandidate(cs, n, p.id) case Some(c) => Hit(c) case None => Miss)
    case JStr(s) =>
      match parse(s)
      case None => Raise
      case Some(n) => (match FindCandidate(cs, n, p.id) case Some(c) => Hit(c) case None => Miss)
  }

  /** Why a loop over the positions ended: it ran through, a multi-vote position had too many
      selections, a key named no candidate of its position, or an exception was raised. */
  datatype Stop = Done | OverMax(maxVote: int, position: string) | Invalid | Raised

  /** The candidates found for `xs[k..]` up to the first value that finds none, and why the walk
      ended there. */
  function ApiLookups(xs: seq<Scalar>, k: nat, p: Position, cs: seq<Candidate>, parse: string -> Option<int>): (r: (seq<Candidate>, Stop))
    requires k <= |xs|
    decreases |xs| - k
    ensures |r.0| <= |xs| - k
    ensures forall t :: 0 <= t < |r.0| ==> ApiLookup(cs, p, xs[k + t], parse) == Hit(r.0[t])
    ensures r.1 == Done <==> |r.0| == |xs| - k
    ensures r.1 == Done || r.1 == Invalid || r.1 == Raised
    ensures r.1 == Invalid ==> ApiLookup(cs, p, xs[k + |r.0|], parse) == Miss
    ensures r.1 == Raised ==> ApiLookup(cs, p, xs[k + |r.0|], parse) == Raise
  {
    if k == |xs| then ([], Done)
    else match ApiLookup(cs, p, xs[k], parse)
      case Miss => ([], Invalid)
      case Raise => ([], Raised)
      case Hit(c) => var rest := ApiLookups(xs, k + 1, p, cs, parse); ([c] + rest.0, rest.1)
  }

  // ---------------------------------------------------------------------------------------------
  // submit_ballot_api_view: the loop over every position

  /** One position's turn: skipped, its candidates taken, or a stop after saving `found`. */
  datatype Step = Skip | Take(found: seq<Candidate>) | Halt(found: seq<Candidate>, why: Stop)

  /** The payload key is the slug of the position name for both kinds of position. */
  function ApiStep(p: Position, cs: seq<Candidate>, votes: Payload, slugify: string -> string, parse: string -> Option<int>): Step {
    var key := slugify(p.name);
    if key !in votes || !Truthy(votes[key]) then Skip
    else if p.maxVote > 1 then
      match Items(votes[key])
      case None => Halt([], Raised)
      case Some(xs) =>
        if |xs| > p.maxVote then Halt([], OverMax(p.maxVote, p.name))
        else
          var r := ApiLookups(xs, 0, p, cs, parse);
          if r.1 == Done then Take(r.0) else Halt(r.0, r.1)
    else
      var x := First(votes[key]);
      if !TruthyScalar(x) then Skip
      else match ApiLookup(cs, p, x, parse)
        case Hit(c) => Take([c])
        case Miss => Halt([], Invalid)
        case Raise => Halt([], Raised)
  }

  function Found(st: Step): seq<Candidate> {
    if st.Skip? then [] else st.found
  }

  function StepStop(st: Step): Stop {
    if st.Halt? then st.why else Done
  }

  /** The rows created, in order, and why the loop over `ps[i..]` ended. */
  datatype Scan = Scan(picks: seq<Pick>, stop: Stop)

  function ApiScan(ps: seq<Position>, i: nat, cs: seq<Candidate>, votes: Payload, slugify: string -> string, parse: string -> Option<int>): Scan
    requires i <= |ps|
    decreases |ps| - i
  {
    if i == |ps| then Scan([], Done)
    else match ApiStep(ps[i], cs, votes, slugify, parse)
      case Skip => ApiScan(ps, i + 1, cs, votes, slugify, parse)
      case Take(found) => var r := ApiScan(ps, i + 1, cs, votes, slugify, parse); Scan(Tag(ps[i], found) + r.picks, r.stop)
      case Halt(found, why) => Scan(Tag(ps[i], found), why)
  }

  lemma ApiStepPicks(p: Position, cs: seq<Candidate>, votes: Payload, slugify: string -> string, parse: string -> Option<int>)
    ensures forall c :: c in Found(ApiStep(p, cs, votes, slugify, parse)) ==> c in cs && c.position == p.id
  {
    var key := slugify(p.name);
    if key in votes && Truthy(votes[key]) && p.maxVote > 1 && Items(votes[key]).Some? {
      var r := ApiLookups(Items(votes[key]).value, 0, p, cs, parse);
      forall c | c in r.0 ensures c in cs && c.position == p.id {
        var t :| 0 <= t < |r.0| && r.0[t] == c;
      }
    }
  }

  /** Every created row names one of the positions scanned and one of that position's candidates. */
  lemma {:induction false} ApiScanPicks(ps: seq<Position>, i: nat, cs: seq<Candidate>, votes: Payload, slugify: string -> string, parse: string -> Option<int>)
    requires i <= |ps|
    decreases |ps| - i
    ensures PicksFrom(ApiScan(ps, i, cs, votes, slugify, parse).picks, ps, cs)
  {
    if i < |ps| {
      ApiScanPicks(ps, i + 1, cs, votes, slugify, parse);
      var st := ApiStep(ps[i], cs, votes, slugify, parse);
      ApiStepPicks(ps[i], cs, votes, slugify, parse);
      assert PicksFrom(Tag(ps[i], Found(st)), ps, cs);
      if st.Take? {
        PicksAppend(Tag(ps[i], st.found), ApiScan(ps, i + 1, cs, votes, slugify, parse).picks, ps, cs);
      }
    }
  }

  /** A single-vote position is skipped when its value is missing or falsy, and a list is read
      as its first element alone. */
  lemma ApiSingleUsesFirst(p: Position, cs: seq<Candidate>, votes: Payload, slugify: string -> string, parse: string -> Option<int>)
    requires p.maxVote <= 1
    ensures var key := slugify(p.name);
            && (key !in votes || !Truthy(votes[key]) ==> ApiStep(p, cs, votes, slugify, parse) == Skip)
            && (key in votes && votes[key].Many? && votes[key].xs != [] ==>
                  ApiStep(p, cs, votes, slugify, parse) == ApiStep(p, cs, votes[key := One(votes[key].xs[0])], slugify, parse))
  {
  }

  // ---------------------------------------------------------------------------------------------
  // submit_ballot_api_view

  /** The responses: 403 for a non-voter account; a server error when the account has no voter
      row (the lookup raises outside the `try`); 400 for an account that has voted, an empty
      payload, too many selections or an unknown candidate; 500 `Error` for an exception inside
      the `try`, and 500 `Failed` when the row count check fails; `Submitted` is 200. */
  datatype ApiReply =
    | Forbidden
    | NoVoter
    | AlreadyVoted
    | NoSelection
    | TooMany(maxVote: int, position: string)
    | InvalidCandidate
    | Error
    | Failed
    | Submitted

  /** `request.user.voter`. */
  function LinkedVoter(db: Db, user: User): (r: Option<Voter>)
    ensures r.Some? ==> r.value in db.voters && user.voter == Some(r.value.id)
  {
    if user.voter.None? then None
    else match VoterAt(db.voters, user.voter.value)
      case None => None
      case Some(j) => Some(db.voters[j])
  }

  /** What follows the loop for voter `v`, starting from `db`: a stop deletes the rows this call
      created again; a full run compares the voter's row count with the rows created. */
  function ApiRecord(db: Db, v: Id, scan: Scan): (Db, ApiReply) {
    var db2 := Saved(db, v, scan.picks);
    var rolledBack := db2.(votes := Filter(db2.votes, NotCreated(v, db.nextVoteId, db2.nextVoteId)));
    match scan.stop
    case OverMax(m, name) => (rolledBack, TooMany(m, name))
    case Invalid => (rolledBack, InvalidCandidate)
    case Raised => (rolledBack, Error)
    case Done =>
      if |RowsOfVoter(db2.votes, v)| != |scan.picks| then (db2.(votes := RowsNotOfVoter(db2.votes, v)), Failed)
      else (db2.(voters := MarkVoted(db2.voters, v)), Submitted)
  }

  /** Positions are read with `Position.objects.all()`: every election's, in key order. */
  function ApiSubmit(db: Db, user: User, votes: Payload, slugify: string -> string, parse: string -> Option<int>): (Db, ApiReply) {
    if user.userType != "2" then (db, Forbidden)
    else match LinkedVoter(db, user)
      case None => (db, NoVoter)
      case Some(voter) =>
        if voter.voted then (db, AlreadyVoted)
        else if |votes| == 0 then (db, NoSelection)
        else ApiRecord(db, voter.id, ApiScan(db.positions, 0, db.candidates, votes, slugify, parse))
  }

  method SubmitBallotApi(store: Store, user: User, votes: Payload, slugify: string -> string, parse: string -> Option<int>)
    returns (reply: ApiReply)
    modifies store
    ensures (store.Tables(), reply) == ApiSubmit(old(store.Tables()), user, votes, slugify, parse)
  {
    if user.userType != "2" {
      return Forbidden;
    }
    if user.voter.None? {
      return NoVoter;
    }
    var j := VoterAt(store.voters, user.voter.value);
    if j.None? {
      return NoVoter;
    }
    var voter := store.voters[j.value];
    if voter.voted {
      return AlreadyVoted;
    }
    if |votes| == 0 {
      return NoSelection;
    }
    // The rows this call creates take the keys first .. store.nextVoteId - 1: they stand for
    // `created_votes`, and every early return of the loop deletes them again.
    var first := store.nextVoteId;
    var formCount, stop := ApiRecordSelections(store, voter.id, store.positions, votes, slugify, parse);
    if stop != Done {
      DeleteCreatedRows(store, voter.id, first, store.nextVoteId);
      match stop
      case OverMax(m, name) => return TooMany(m, name);
      case Invalid => return InvalidCandidate;
      case Raised => return Error;
    }
    var inserted := RowsOfVoter(store.votes, voter.id);
    if |inserted| != formCount {
      DeleteVoterRows(store, voter.id);
      return Failed;
    }
    MarkVoterVoted(store, voter.id);
    reply := Submitted;
  }

  /** The loop over the positions; `formCount` counts the rows created. */
  method ApiRecordSelections(store: Store, voter: Id, ps: seq<Position>, votes: Payload, slugify: string -> string, parse: string -> Option<int>)
    returns (formCount: nat, stop: Stop)
    modifies store
    ensures var s := ApiScan(ps, 0, old(store.candidates), votes, slugify, parse);
            && store.Tables() == Saved(old(store.Tables()), voter, s.picks)
            && stop == s.stop
            && formCount == |s.picks|
  {
    ghost var db := store.Tables();
    var cs := store.candidates;
    ghost var picked: seq<Pick> := [];
    formCount := 0;
    var i := 0;
    while i < |ps|
      invariant 0 <= i <= |ps|
      invariant ApiScan(ps, 0, cs, votes, slugify, parse) ==
                Scan(picked + ApiScan(ps, i, cs, votes, slugify, parse).picks, ApiScan(ps, i, cs, votes, slugify, parse).stop)
      invariant store.Tables() == Saved(db, voter, picked) && cs == db.candidates
      invariant formCount == |picked|
    {
      ghost var st := ApiStep(ps[i], cs, votes, slugify, parse);
      var n, why := ApiRecordPosition(store, voter, ps[i], votes, slugify, parse);
      ApiScanAdvance(ps, i, cs, votes, slugify, parse, picked);
      SavedTwice(db, voter, picked, Tag(ps[i], Found(st)));
      picked := picked + Tag(ps[i], Found(st));
      formCount := formCount + n;
      if why != Done {
        return formCount, why;
      }
      i := i + 1;
    }
    assert picked + [] == picked;
    stop := Done;
  }

  /** One more turn of `ApiScan`: the rows of position `ps[i]` join those before it. */
  lemma ApiScanAdvance(ps: seq<Position>, i: nat, cs: seq<Candidate>, votes: Payload, slugify: string -> string, parse: string -> Option<int>, picked: seq<Pick>)
    requires i < |ps|
    requires ApiScan(ps, 0, cs, votes, slugify, parse) ==
             Scan(picked + ApiScan(ps, i, cs, votes, slugify, parse).picks, ApiScan(ps, i, cs, votes, slugify, parse).stop)
    ensures var st := ApiStep(ps[i], cs, votes, slugify, parse);
            var rest := ApiScan(ps, i + 1, cs, votes, slugify, parse);
            var now := picked + Tag(ps[i], Found(st));
            ApiScan(ps, 0, cs, votes, slugify, parse) == if st.Halt? then Scan(now, st.why) else Scan(now + rest.picks, rest.stop)
  {
    var st := ApiStep(ps[i], cs, votes, slugify, parse);
    var rest := ApiScan(ps, i + 1, cs, votes, slugify, parse);
    if st.Skip? {
      assert picked + Tag(ps[i], []) == picked;
    }
    assert picked + (Tag(ps[i], Found(st)) + rest.picks) == (picked + Tag(ps[i], Found(st))) + rest.picks;
  }

  /** One turn of a loop over the values `xs`: a value that finds no candidate ends the lookups
      with what was found so far, and a candidate joins them. */
  lemma ApiLookupsAdvance(xs: seq<Scalar>, k: nat, p: Position, cs: seq<Candidate>, parse: string -> Option<int>, found: seq<Candidate>)
    requires k < |xs|
    requires ApiLookups(xs, 0, p, cs, parse) == (found + ApiLookups(xs, k, p, cs, parse).0, ApiLookups(xs, k, p, cs, parse).1)
    ensures var c := ApiLookup(cs, p, xs[k], parse);
            && (c.Miss? ==> ApiLookups(xs, 0, p, cs, parse) == (found, Invalid))
            && (c.Raise? ==> ApiLookups(xs, 0, p, cs, parse) == (found, Raised))
            && (c.Hit? ==>
                  ApiLookups(xs, 0, p, cs, parse) ==
                  ((found + [c.c]) + ApiLookups(xs, k + 1, p, cs, parse).0, ApiLookups(xs, k + 1, p, cs, parse).1))
  {
    var c := ApiLookup(cs, p, xs[k], parse);
    if c.Hit? {
      var rest := ApiLookups(xs, k + 1, p, cs, parse);
      assert found + ([c.c] + rest.0) == (found + [c.c]) + rest.0;
    } else {
      assert found + [] == found;
    }
  }

  /** One turn of the loop: the payload value of position `p`, its checks and its rows. */
  method ApiRecordPosition(store: Store, voter: Id, p: Position, votes: Payload, slugify: string -> string, parse: string -> Option<int>)
    returns (n: nat, stop: Stop)
    modifies store
    ensures var st := ApiStep(p, old(store.candidates), votes, slugify, parse);
            && store.Tables() == Saved(old(store.Tables()), voter, Tag(p, Found(st)))
            && stop == StepStop(st)
            && n == |Found(st)|
  {
    ghost var db := store.Tables();
    var cs := store.candidates;
    var key := slugify(p.name);
    assert Saved(db, voter, Tag(p, [])) == db;
    if key !in votes || !Truthy(votes[key]) {
      return 0, Done;
    }
    if p.maxVote > 1 {
      var xs := Items(votes[key]);
      if xs.None? {
        return 0, Raised;
      }
      if |xs.value| > p.maxVote {
        return 0, OverMax(p.maxVote, p.name);
      }
      n, stop := ApiRecordMany(store, voter, p, xs.value, parse);
      return;
    }
    var x := First(votes[key]);
    if !TruthyScalar(x) {
      return 0, Done;
    }
    var c := ApiLookup(cs, p, x, parse);
    if c.Miss? {
      return 0, Invalid;
    }
    if c.Raise? {
      return 0, Raised;
    }
    SaveVote(store, voter, p, c.c);
    assert Tag(p, [c.c]) == [(p, c.c)];
    n, stop := 1, Done;
  }

  /** The inner loop of a multi-vote position: one row per value, up to the first that fails. */
  method ApiRecordMany(store: Store, voter: Id, p: Position, xs: seq<Scalar>, parse: string -> Option<int>)
    returns (n: nat, stop: Stop)
    modifies store
    ensures var r := ApiLookups(xs, 0, p, old(store.candidates), parse);
            && store.Tables() == Saved(old(store.Tables()), voter, Tag(p, r.0))
            && stop == r.1
            && n == |r.0|
  {
    ghost var db := store.Tables();
    var cs := store.candidates;
    ghost var found: seq<Candidate> := [];
    assert [] + ApiLookups(xs, 0, p, cs, parse).0 == ApiLookups(xs, 0, p, cs, parse).0;
    assert Saved(db, voter, Tag(p, [])) == db;
    n := 0;
    var k := 0;
    while k < |xs|
      invariant 0 <= k <= |xs| && n == k && |found| == k
      invariant ApiLookups(xs, 0, p, cs, parse) ==
                (found + ApiLookups(xs, k, p, cs, parse).0, ApiLookups(xs, k, p, cs, parse).1)
      invariant store.Tables() == Saved(db, voter, Tag(p, found)) && cs == db.candidates
    {
      var c := ApiLookup(cs, p, xs[k], parse);
      ApiLookupsAdvance(xs, k, p, cs, parse, found);
      if c.Miss? {
        return n, Invalid;
      }
      if c.Raise? {
        return n, Raised;
      }
      SaveVote(store, voter, p, c.c);
      SavedTwice(db, voter, Tag(p, found), [(p, c.c)]);
      TagSnoc(p, found, c.c);
      found := found + [c.c];
      n := n + 1;
      k := k + 1;
    }
    assert found + [] == found;
    stop := Done;
  }

  // ---------------------------------------------------------------------------------------------
  // What a submission promises

  /** The checks before the loop, each as an if-and-only-if; none of them writes. */
  lemma ApiRefusesEarly(db: Db, user: User, votes: Payload, slugify: string -> string, parse: string -> Option<int>)
    ensures var r := ApiSubmit(db, user, votes, slugify, parse);
            && (r.1 == Forbidden <==> user.userType != "2")
            && (r.1 == NoVoter <==> user.userType == "2" && LinkedVoter(db, user).None?)
            && (r.1 == AlreadyVoted <==> user.userType == "2" && LinkedVoter(db, user).Some? && LinkedVoter(db, user).value.voted)
            && (r.1 == NoSelection <==> user.userType == "2" && LinkedVoter(db, user).Some? && !LinkedVoter(db, user).value.voted && |votes| == 0)
            && (r.1 in {Forbidden, NoVoter, AlreadyVoted, NoSelection} ==> r.0 == db)
  {
  }

  /** The loop's outcome: a stop deletes exactly the rows this call created, so the votes table
      is the one it started from (only the key sequence has moved on); a full run is `Submitted`,
      with one new row per selection and the voter marked, exactly when the voter had no rows
      before; otherwise every row of the voter is deleted. */
  lemma ApiRecordOutcome(db: Db, v: Id, scan: Scan)
    requires forall x :: x in db.votes ==> x.id < db.nextVoteId
    ensures var r := ApiRecord(db, v, scan);
            && (scan.stop != Done ==> r.0 == db.(nextVoteId := db.nextVoteId + |scan.picks|))
            && (scan.stop.OverMax? <==> r.1.TooMany?)
            && (scan.stop.OverMax? ==> r.1.maxVote == scan.stop.maxVote && r.1.position == scan.stop.position)
            && (scan.stop == Invalid <==> r.1 == InvalidCandidate)
            && (scan.stop == Raised <==> r.1 == Error)
            && (r.1 == Submitted <==> scan.stop == Done && RowsOfVoter(db.votes, v) == [])
            && (r.1 == Submitted ==> r.0 == Saved(db, v, scan.picks).(voters := MarkVoted(db.voters, v)))
            && (r.1 == Failed <==> scan.stop == Done && RowsOfVoter(db.votes, v) != [])
            && (r.1 == Failed ==> r.0.votes == RowsNotOfVoter(db.votes, v) && r.0.voters == db.voters)
  {
    RollbackRestores(db, v, scan.picks);
    SavedRowsOfVoter(db, v, scan.picks);
  }

  /** Every answer but `Submitted` leaves no row behind that the votes table did not have. */
  lemma ApiLeavesNoStrayRows(db: Db, user: User, votes: Payload, slugify: string -> string, parse: string -> Option<int>)
    requires Valid(db)
    ensures var r := ApiSubmit(db, user, votes, slugify, parse);
            r.1 != Submitted ==> forall x :: x in r.0.votes ==> x in db.votes
  {
    var r := ApiSubmit(db, user, votes, slugify, parse);
    if user.userType == "2" && LinkedVoter(db, user).Some? {
      var v := LinkedVoter(db, user).value;
      ApiRecordOutcome(db, v.id, ApiScan(db.positions, 0, db.candidates, votes, slugify, parse));
      if r.1 == Failed {
        forall x | x in r.0.votes ensures x in db.votes {
          assert NotOfVoter(v.id)(x);
        }
      }
    }
  }

  /** An account that submitted once is answered `AlreadyVoted` from then on, and nothing is
      written. */
  lemma ApiVotesOnce(db: Db, user: User, votes: Payload, again: Payload, slugify: string -> string, parse: string -> Option<int>)
    requires Valid(db)
    ensures var r := ApiSubmit(db, user, votes, slugify, parse);
            r.1 == Submitted ==> ApiSubmit(r.0, user, again, slugify, parse) == (r.0, AlreadyVoted)
  {
    var r := ApiSubmit(db, user, votes, slugify, parse);
    if r.1 == Submitted {
      var v := LinkedVoter(db, user).value;
      var j := VoterAt(db.voters, v.id).value;
      var scan := ApiScan(db.positions, 0, db.candidates, votes, slugify, parse);
      ApiRecordOutcome(db, v.id, scan);
      var vs := MarkVoted(db.voters, v.id);
      assert r.0.voters == vs;
      assert vs[j].voted;
      var j2 := VoterAt(vs, v.id).value;
      assert db.voters[j2].id == v.id;
      assert VoterId(db.voters[j2]) == VoterId(db.voters[j]);
    }
  }

  /** A submission keeps every table constraint. */
  lemma ApiSubmitValid(db: Db, user: User, votes: Payload, slugify: string -> string, parse: string -> Option<int>)
    requires Valid(db)
    ensures Valid(ApiSubmit(db, user, votes, slugify, parse).0)
  {
    if user.userType == "2" && LinkedVoter(db, user).Some? {
      var v := LinkedVoter(db, user).value;
      var scan := ApiScan(db.positions, 0, db.candidates, votes, slugify, parse);
      ApiScanPicks(db.positions, 0, db.candidates, votes, slugify, parse);
      assert v.id in VoterIds(db.voters);
      SavedValid(db, v.id, scan.picks);
      var db2 := Saved(db, v.id, scan.picks);
      ApiRecordOutcome(db, v.id, scan);
      if scan.stop == Done {
        DropVoterRowsValid(db2, v.id);
        MarkVotedValid(db2, v.id);
      }
    }
  }

  // ---------------------------------------------------------------------------------------------
  // preview_vote_api_view

  /** The preview's own reading of one position: a block for it, or the reason the loop breaks. */
  function ApiPreviewStep(p: Position, cs: seq<Candidate>, votes: Payload, slugify: string -> string, parse: string -> Option<int>): (seq<Line>, Stop) {
    var key := slugify(p.name);
    if key !in votes || !Truthy(votes[key]) then ([], Done)
    else if p.maxVote > 1 then
      match Items(votes[key])
      case None => ([], Raised)
      case Some(xs) =>
        if |xs| > p.maxVote then ([], OverMax(p.maxVote, p.name))
        else
          var r := ApiLookups(xs, 0, p, cs, parse);
          if r.1 != Done then ([], r.1) else ([Line(p, r.0)], Done)
    else
      var x := First(votes[key]);
      if !TruthyScalar(x) then ([], Done)
      else match ApiLookup(cs, p, x, parse)
        case Hit(c) => ([Line(p, [c])], Done)
        case Miss => ([], Invalid)
        case Raise => ([], Raised)
  }

  function ApiPreviewFrom(ps: seq<Position>, i: nat, cs: seq<Candidate>, votes: Payload, slugify: string -> string, parse: string -> Option<int>): (seq<Line>, Stop)
    requires i <= |ps|
    decreases |ps| - i
  {
    if i == |ps| then ([], Done)
    else
      var h := ApiPreviewStep(ps[i], cs, votes, slugify, parse);
      if h.1 != Done then ([], h.1)
      else var t := ApiPreviewFrom(ps, i + 1, cs, votes, slugify, parse); (h.0 + t.0, t.1)
  }

  /** 403 for a non-voter account, 400 for an empty payload, 400 with the first error's message,
      a server error for an exception (nothing catches it here), and 200 with the blocks. */
  datatype ApiPreview =
    | PreviewForbidden
    | NoVotes
    | PreviewTooMany(maxVote: int, position: string)
    | PreviewInvalid
    | PreviewCrash
    | PreviewList(lines: seq<Line>)

  function ApiPreviewOf(db: Db, user: User, votes: Payload, slugify: string -> string, parse: string -> Option<int>): ApiPreview {
    if user.userType != "2" then PreviewForbidden
    else if |votes| == 0 then NoVotes
    else
      var r := ApiPreviewFrom(db.positions, 0, db.candidates, votes, slugify, parse);
      match r.1
      case Done => PreviewList(r.0)
      case OverMax(m, name) => PreviewTooMany(m, name)
      case Invalid => PreviewInvalid
      case Raised => PreviewCrash
  }

  method PreviewVoteApi(store: Store, user: User, votes: Payload, slugify: string -> string, parse: string -> Option<int>)
    returns (r: ApiPreview)
    ensures r == ApiPreviewOf(store.Tables(), user, votes, slugify, parse)
  {
    if user.userType != "2" {
      return PreviewForbidden;
    }
    if |votes| == 0 {
      return NoVotes;
    }
    var ps := store.positions;
    var cs := store.candidates;
    var lines: seq<Line> := [];
    assert [] + ApiPreviewFrom(ps, 0, cs, votes, slugify, parse).0 == ApiPreviewFrom(ps, 0, cs, votes, slugify, parse).0;
    var i := 0;
    while i < |ps|
      invariant 0 <= i <= |ps|
      invariant ApiPreviewFrom(ps, 0, cs, votes, slugify, parse) ==
                (lines + ApiPreviewFrom(ps, i, cs, votes, slugify, parse).0, ApiPreviewFrom(ps, i, cs, votes, slugify, parse).1)
    {
      var block, why := ApiPreviewPosition(cs, ps[i], votes, slugify, parse);
      ApiPreviewAdvance(ps, i, cs, votes, slugify, parse, lines);
      match why
      case OverMax(m, name) => return PreviewTooMany(m, name);
      case Invalid => return PreviewInvalid;
      case Raised => return PreviewCrash;
      case Done =>
      lines := lines + block;
      i := i + 1;
    }
    assert lines + [] == lines;
    r := PreviewList(lines);
  }

  /** One turn of the preview loop: a stop at `ps[i]` is the preview's stop, and otherwise the
      block joins the lines read so far. */
  lemma ApiPreviewAdvance(ps: seq<Position>, i: nat, cs: seq<Candidate>, votes: Payload, slugify: string -> string,
                          parse: string -> Option<int>, lines: seq<Line>)
    requires i < |ps|
    requires ApiPreviewFrom(ps, 0, cs, votes, slugify, parse) ==
             (lines + ApiPreviewFrom(ps, i, cs, votes, slugify, parse).0, ApiPreviewFrom(ps, i, cs, votes, slugify, parse).1)
    ensures var h := ApiPreviewStep(ps[i], cs, votes, slugify, parse);
            && (h.1 != Done ==> ApiPreviewFrom(ps, 0, cs, votes, slugify, parse).1 == h.1)
            && (h.1 == Done ==>
                  ApiPreviewFrom(ps, 0, cs, votes, slugify, parse) ==
                  ((lines + h.0) + ApiPreviewFrom(ps, i + 1, cs, votes, slugify, parse).0, ApiPreviewFrom(ps, i + 1, cs, votes, slugify, parse).1))
  {
    var h := ApiPreviewStep(ps[i], cs, votes, slugify, parse);
    var rest := ApiPreviewFrom(ps, i + 1, cs, votes, slugify, parse);
    if h.1 == Done {
      assert lines + (h.0 + rest.0) == (lines + h.0) + rest.0;
    }
  }

  method ApiPreviewPosition(cs: seq<Candidate>, p: Position, votes: Payload, slugify: string -> string, parse: string -> Option<int>)
    returns (block: seq<Line>, stop: Stop)
    ensures (block, stop) == ApiPreviewStep(p, cs, votes, slugify, parse)
  {
    var key := slugify(p.name);
    if key !in votes || !Truthy(votes[key]) {
      return [], Done;
    }
    if p.maxVote > 1 {
      var xs := Items(votes[key]);
      if xs.None? {
        return [], Raised;
      }
      if |xs.value| > p.maxVote {
        return [], OverMax(p.maxVote, p.name);
      }
      var found, why := LookupAll(cs, p, xs.value, parse);
      if why != Done {
        return [], why;
      }
      return [Line(p, found)], Done;
    }
    var x := First(votes[key]);
    if !TruthyScalar(x) {
      return [], Done;
    }
    var c := ApiLookup(cs, p, x, parse);
    match c
    case Hit(cand) => block, stop := [Line(p, [cand])], Done;
    case Miss => block, stop := [], Invalid;
    case Raise => block, stop := [], Raised;
  }

  /** The preview's inner loop: the candidates of `xs`, up to the first value that fails. */
  method LookupAll(cs: seq<Candidate>, p: Position, xs: seq<Scalar>, parse: string -> Option<int>)
    returns (found: seq<Candidate>, stop: Stop)
    ensures (found, stop) == ApiLookups(xs, 0, p, cs, parse)
  {
    found := [];
    assert [] + ApiLookups(xs, 0, p, cs, parse).0 == ApiLookups(xs, 0, p, cs, parse).0;
    var k := 0;
    while k < |xs|
      invariant 0 <= k <= |xs|
      invariant ApiLookups(xs, 0, p, cs, parse) ==
                (found + ApiLookups(xs, k, p, cs, parse).0, ApiLookups(xs, k, p, cs, parse).1)
    {
      var c := ApiLookup(cs, p, xs[k], parse);
      ApiLookupsAdvance(xs, k, p, cs, parse, found);
      if !c.Hit? {
        return found, if c.Miss? then Invalid else Raised;
      }
      found := found + [c.c];
      k := k + 1;
    }
    assert found + [] == found;
    stop := Done;
  }

  // ---------------------------------------------------------------------------------------------
  // The preview and the submission read a payload the same way

  lemma ApiPreviewStepAgrees(p: Position, cs: seq<Candidate>, votes: Payload, slugify: string -> string, parse: string -> Option<int>)
    ensures var pv := ApiPreviewStep(p, cs, votes, slugify, parse);
            var st := ApiStep(p, cs, votes, slugify, parse);
            && pv.1 == StepStop(st)
            && (pv.1 == Done ==> Flatten(pv.0) == Tag(p, Found(st)))
  {
    var pv := ApiPreviewStep(p, cs, votes, slugify, parse);
    var st := ApiStep(p, cs, votes, slugify, parse);
    if pv.0 != [] {
      assert Flatten(pv.0) == Tag(p, pv.0[0].candidates) + Flatten([]);
    }
  }

  /** The preview breaks exactly where the submission stops and for the same reason, and on a
      full run its blocks stand for exactly the rows the submission creates. */
  lemma {:induction false} ApiPreviewAgrees(ps: seq<Position>, i: nat, cs: seq<Candidate>, votes: Payload, slugify: string -> string, parse: string -> Option<int>)
    requires i <= |ps|
    decreases |ps| - i
    ensures var pv := ApiPreviewFrom(ps, i, cs, votes, slugify, parse);
            var sc := ApiScan(ps, i, cs, votes, slugify, parse);
            && pv.1 == sc.stop
            && (pv.1 == Done ==> Flatten(pv.0) == sc.picks)
  {
    if i < |ps| {
      ApiPreviewStepAgrees(ps[i], cs, votes, slugify, parse);
      ApiPreviewAgrees(ps, i + 1, cs, votes, slugify, parse);
      var h := ApiPreviewStep(ps[i], cs, votes, slugify, parse);
      var t := ApiPreviewFrom(ps, i + 1, cs, votes, slugify, parse);
      if h.1 == Done {
        FlattenAppend(h.0, t.0);
      }
    }
  }

  /** For a voter who may submit, the preview answers as the submission would: a list exactly
      when the submission reaches its row count check, with blocks standing for the rows it
      creates, and the submission's refusal otherwise. */
  lemma ApiPreviewMatchesSubmit(db: Db, user: User, votes: Payload, slugify: string -> string, parse: string -> Option<int>)
    requires user.userType == "2" && LinkedVoter(db, user).Some? && !LinkedVoter(db, user).value.voted && |votes| > 0
    requires forall x :: x in db.votes ==> x.id < db.nextVoteId
    ensures var pv := ApiPreviewOf(db, user, votes, slugify, parse);
            var sb := ApiSubmit(db, user, votes, slugify, parse);
            && (pv.PreviewList? <==> sb.1 == Submitted || sb.1 == Failed)
            && (sb.1 == Submitted ==> sb.0.votes == db.votes + NewRows(db.nextVoteId, LinkedVoter(db, user).value.id, Flatten(pv.lines)))
            && (pv.PreviewTooMany? <==> sb.1.TooMany?)
            && (pv.PreviewTooMany? ==> pv.maxVote == sb.1.maxVote && pv.position == sb.1.position)
            && (pv == PreviewInvalid <==> sb.1 == InvalidCandidate)
            && (pv == PreviewCrash <==> sb.1 == Error)
  {
    var v := LinkedVoter(db, user).value;
    ApiPreviewAgrees(db.positions, 0, db.candidates, votes, slugify, parse);
    ApiRecordOutcome(db, v.id, ApiScan(db.positions, 0, db.candidates, votes, slugify, parse));
  }
}
