/** The SIN-based web ballot (voting/views.py): `submit_ballot` records a voter's selections and
    `preview_vote` shows them back without writing. Form values are the raw lists of
    `dict(request.POST)`; `slugify` and the integer coercion of keys are parameters. */
module WebVoting {
  import opened Models
  import opened Recording
  import Ballot

  type Form = map<string, seq<string>>

  /** The keys `submit_ballot` pops before it reads selections. */
  const Reserved: set<string> := {"csrfmiddlewaretoken", "submit_vote", "sin", "election_id"}

  /** A popped or looked-up key is falsy: missing, or an empty list. */
  predicate Absent(form: Form, key: string) {
    key !in form || form[key] == []
  }

  /** `Candidate.objects.get(id=v, position=p)`: `parse` coerces the string to a key; a value that
      does not coerce raises, and the views treat that like a missing candidate. */
  function Lookup(cs: seq<Candidate>, p: Position, v: string, parse: string -> Option<int>): Option<Candidate> {
    match parse(v)
    case None => None
    case Some(n) => FindCandidate(cs, n, p.id)
  }

  /** The candidates found for `vals[k..]` up to the first value that finds none, and whether
      every value found one. */
  function Lookups(vals: seq<string>, k: nat, p: Position, cs: seq<Candidate>, parse: string -> Option<int>): (r: (seq<Candidate>, bool))
    requires k <= |vals|
    decreases |vals| - k
    ensures |r.0| <= |vals| - k
    ensures forall t :: 0 <= t < |r.0| ==> Lookup(cs, p, vals[k + t], parse) == Some(r.0[t])
    ensures r.1 <==> |r.0| == |vals| - k
    ensures !r.1 ==> Lookup(cs, p, vals[k + |r.0|], parse).None?
  {
    if k == |vals| then ([], true)
    else match Lookup(cs, p, vals[k], parse)
      case None => ([], false)
      case Some(c) => var rest := Lookups(vals, k + 1, p, cs, parse); ([c] + rest.0, rest.1)
  }

  // ---------------------------------------------------------------------------------------------
  // submit_ballot: the loop over the election's positions

  /** Why the loop stopped: it ran through, a multi-vote position had too many selections, or a
      value named no candidate of its position. */
  datatype Stop = Done | OverMax(maxVote: int, position: string) | Unknown

  /** One position's turn: skipped (no key), its candidates taken, or a stop after saving `found`. */
  datatype Step = Skip | Take(found: seq<Candidate>) | Halt(found: seq<Candidate>, why: Stop)

  function WebStep(p: Position, cs: seq<Candidate>, form: Form, slugify: string -> string, parse: string -> Option<int>): Step {
    var key := Ballot.FieldKey(p, slugify);
    if key !in form then Skip
    else if p.maxVote > 1 then
      if |form[key]| > p.maxVote then Halt([], OverMax(p.maxVote, p.name))
      else
        var r := Lookups(form[key], 0, p, cs, parse);
        if r.1 then Take(r.0) else Halt(r.0, Unknown)
    else if form[key] == [] then Halt([], Unknown)
    else match Lookup(cs, p, form[key][0], parse)
      case None => Halt([], Unknown)
      case Some(c) => Take([c])
  }

  /** The candidates a step saves rows for. */
  function Found(st: Step): seq<Candidate> {
    if st.Skip? then [] else st.found
  }

  function StepStop(st: Step): Stop {
    if st.Halt? then st.why else Done
  }

  /** The rows saved, in order, and why the loop over `ps[i..]` ended. */
  datatype Scan = Scan(picks: seq<Pick>, stop: Stop)

  function WebScan(ps: seq<Position>, i: nat, cs: seq<Candidate>, form: Form, slugify: string -> string, parse: string -> Option<int>): Scan
    requires i <= |ps|
    decreases |ps| - i
  {
    if i == |ps| then Scan([], Done)
    else match WebStep(ps[i], cs, form, slugify, parse)
      case Skip => WebScan(ps, i + 1, cs, form, slugify, parse)
      case Take(found) => var r := WebScan(ps, i + 1, cs, form, slugify, parse); Scan(Tag(ps[i], found) + r.picks, r.stop)
      case Halt(found, why) => Scan(Tag(ps[i], found), why)
  }

  /** Every saved pick names one of the positions scanned and one of that position's candidates. */
  lemma {:induction false} WebScanPicks(ps: seq<Position>, i: nat, cs: seq<Candidate>, form: Form, slugify: string -> string, parse: string -> Option<int>)
    requires i <= |ps|
    decreases |ps| - i
    ensures PicksFrom(WebScan(ps, i, cs, form, slugify, parse).picks, ps, cs)
  {
    if i < |ps| {
      WebScanPicks(ps, i + 1, cs, form, slugify, parse);
      var st := WebStep(ps[i], cs, form, slugify, parse);
      StepPicks(ps[i], cs, form, slugify, parse);
      if !st.Skip? {
        assert PicksFrom(Tag(ps[i], st.found), ps, cs);
      }
      if st.Take? {
        PicksAppend(Tag(ps[i], st.found), WebScan(ps, i + 1, cs, form, slugify, parse).picks, ps, cs);
      }
    }
  }

  lemma StepPicks(p: Position, cs: seq<Candidate>, form: Form, slugify: string -> string, parse: string -> Option<int>)
    ensures var st := WebStep(p, cs, form, slugify, parse);
            !st.Skip? ==> forall c :: c in st.found ==> c in cs && c.position == p.id
  {
    var key := Ballot.FieldKey(p, slugify);
    if key in form && p.maxVote > 1 && |form[key]| <= p.maxVote {
      var r := Lookups(form[key], 0, p, cs, parse);
      forall c | c in r.0 ensures c in cs && c.position == p.id {
        var t :| 0 <= t < |r.0| && r.0[t] == c;
      }
    }
  }

  /** A ballot input sent back alone, with its candidate's key as the value, is taken by the
      submission: the ballot names its fields with the very keys the submission reads. */
  lemma BallotInputAccepted(p: Position, cs: seq<Candidate>, t: nat, v: string, slugify: string -> string, parse: string -> Option<int>)
    requires Distinct(cs, CandidateId)
    requires t < |CandidatesOf(cs, p.id)|
    requires parse(v) == Some(Ballot.SectionOf(p, cs, slugify).inputs[t].candidate as int)
    ensures WebStep(p, cs, map[Ballot.SectionOf(p, cs, slugify).inputs[t].key := [v]], slugify, parse) == Take([CandidatesOf(cs, p.id)[t]])
  {
    Ballot.SectionInputs(p, cs, slugify);
    var c := CandidatesOf(cs, p.id)[t];
    assert c in CandidatesOf(cs, p.id);
    var found := FindCandidate(cs, c.id, p.id);
    assert found == Some(c) by {
      var j :| 0 <= j < |cs| && cs[j] == found.value;
      var k :| 0 <= k < |cs| && cs[k] == c;
      assert CandidateId(cs[j]) == CandidateId(cs[k]);
    }
    if p.maxVote > 1 {
      assert Lookups([v], 1, p, cs, parse) == ([], true);
    }
  }

  // ---------------------------------------------------------------------------------------------
  // submit_ballot

  datatype Target = ToIndex | ToBallot(election: string)

  datatype Outcome =
    | NotPost                               // "Please, browse the system properly"
    | MissingSin                            // "Please enter your SIN"
    | MissingElectionId                     // "Election ID missing"
    | InvalidElection                       // "Invalid Election"
    | AlreadyVoted                          // "You have voted already"
    | NoSelection                           // "Please select at least one candidate"
    | TooMany(maxVote: int, position: string) // "You can only choose N candidates for P"
    | BadCandidate                          // "Please, browse the system properly ..."
    | TryAgain                              // "Please try voting again!"
    | Thanks                                // "Thanks for voting"

  /** A redirect with its flash message, or the server error of an election key that does not
      coerce to an integer (`Election.objects.get` raises and nothing catches it). */
  datatype WebReply = Redirect(outcome: Outcome, to: Target) | ServerError

  /** `Voter.objects.get_or_create(sin=sin, election=e)`. */
  function GetOrCreate(db: Db, sin: string, e: Id): (r: (Db, Voter))
    ensures r.1 in r.0.voters && r.1.sin == sin && r.1.election == e
  {
    match VoterBySin(db.voters, sin, e)
    case Some(j) => (db, db.voters[j])
    case None =>
      var v := Voter(db.nextVoterId, e, sin, false);
      (db.(voters := db.voters + [v], nextVoterId := db.nextVoterId + 1), v)
  }

  /** What follows the loop: the rows stay whatever happened; on a full run the voter's row count
      is compared with the number of selections. */
  function Record(db1: Db, voter: Id, scan: Scan, arg: string): (Db, WebReply) {
    var db2 := Saved(db1, voter, scan.picks);
    match scan.stop
    case OverMax(m, name) => (db2, Redirect(TooMany(m, name), ToBallot(arg)))
    case Unknown => (db2, Redirect(BadCandidate, ToBallot(arg)))
    case Done =>
      if |RowsOfVoter(db2.votes, voter)| != |scan.picks| then
        (db2.(votes := RowsNotOfVoter(db2.votes, voter)), Redirect(TryAgain, ToBallot(arg)))
      else
        (db2.(voters := MarkVoted(db2.voters, voter)), Redirect(Thanks, ToIndex))
  }

  function WebSubmit(db: Db, isPost: bool, form: Form, slugify: string -> string, parse: string -> Option<int>): (Db, WebReply) {
    if !isPost then (db, Redirect(NotPost, ToIndex))
    else if Absent(form, "sin") then
      (db, Redirect(MissingSin, if Absent(form, "election_id") then ToIndex else ToBallot(form["election_id"][0])))
    else if Absent(form, "election_id") then (db, Redirect(MissingElectionId, ToIndex))
    else
      var arg := form["election_id"][0];
      match parse(arg)
      case None => (db, ServerError)
      case Some(n) =>
        match FindElection(db.elections, n)
        case None => (db, Redirect(InvalidElection, ToIndex))
        case Some(election) => Cast(db, election.id, form["sin"][0], form - Reserved, arg, slugify, parse)
  }

  /** The part of a submission that follows the election check, for election `e`, the SIN `sin`
      and the selections `rest`. */
  function Cast(db: Db, e: Id, sin: string, rest: Form, arg: string, slugify: string -> string, parse: string -> Option<int>): (Db, WebReply) {
    var (db1, voter) := GetOrCreate(db, sin, e);
    if voter.voted then (db1, Redirect(AlreadyVoted, ToBallot(arg)))
    else if |rest| == 0 then (db1, Redirect(NoSelection, ToBallot(arg)))
    else Record(db1, voter.id, WebScan(PositionsOf(db1.positions, e), 0, db1.candidates, rest, slugify, parse), arg)
  }

  method SubmitBallot(store: Store, isPost: bool, form: Form, slugify: string -> string, parse: string -> Option<int>)
    returns (reply: WebReply)
    modifies store
    ensures (store.Tables(), reply) == WebSubmit(old(store.Tables()), isPost, form, slugify, parse)
  {
    if !isPost {
      return Redirect(NotPost, ToIndex);
    }
    var sin := if "sin" in form then form["sin"] else [];
    var electionId := if "election_id" in form then form["election_id"] else [];
    var rest := form - Reserved;
    if sin == [] {
      if electionId != [] {
        return Redirect(MissingSin, ToBallot(electionId[0]));
      }
      return Redirect(MissingSin, ToIndex);
    }
    if electionId == [] {
      return Redirect(MissingElectionId, ToIndex);
    }
    var arg := electionId[0];
    var n := parse(arg);
    if n.None? {
      return ServerError;
    }
    var election := FindElection(store.elections, n.value);
    if election.None? {
      return Redirect(InvalidElection, ToIndex);
    }
    var voter := GetOrCreateVoter(store, sin[0], election.value.id);
    if voter.voted {
      return Redirect(AlreadyVoted, ToBallot(arg));
    }
    if |rest| < 1 {
      return Redirect(NoSelection, ToBallot(arg));
    }
    ghost var db1 := store.Tables();
    var positions := PositionsOf(store.positions, election.value.id);
    var formCount, stop := RecordSelections(store, voter.id, positions, rest, slugify, parse);
    if stop.OverMax? {
      return Redirect(TooMany(stop.maxVote, stop.position), ToBallot(arg));
    }
    if stop.Unknown? {
      return Redirect(BadCandidate, ToBallot(arg));
    }
    var inserted := RowsOfVoter(store.votes, voter.id);
    if |inserted| != formCount {
      DeleteVoterRows(store, voter.id);
      return Redirect(TryAgain, ToBallot(arg));
    }
    MarkVoterVoted(store, voter.id);
    reply := Redirect(Thanks, ToIndex);
  }

  method GetOrCreateVoter(store: Store, sin: string, e: Id) returns (voter: Voter)
    modifies store
    ensures (store.Tables(), voter) == GetOrCreate(old(store.Tables()), sin, e)
  {
    var found := VoterBySin(store.voters, sin, e);
    if found.Some? {
      return store.voters[found.value];
    }
    voter := Voter(store.nextVoterId, e, sin, false);
    store.voters := store.voters + [voter];
    store.nextVoterId := store.nextVoterId + 1;
  }

  /** The loop over the positions; `formCount` counts every selection tried. */
  method RecordSelections(store: Store, voter: Id, ps: seq<Position>, form: Form, slugify: string -> string, parse: string -> Option<int>)
    returns (formCount: nat, stop: Stop)
    modifies store
    ensures var s := WebScan(ps, 0, old(store.candidates), form, slugify, parse);
            && store.Tables() == Saved(old(store.Tables()), voter, s.picks)
            && stop == s.stop
            && (stop == Done ==> formCount == |s.picks|)
  {
    ghost var db := store.Tables();
    var cs := store.candidates;
    ghost var picked: seq<Pick> := [];
    formCount := 0;
    var i := 0;
    while i < |ps|
      invariant 0 <= i <= |ps|
      invariant WebScan(ps, 0, cs, form, slugify, parse) ==
                Scan(picked + WebScan(ps, i, cs, form, slugify, parse).picks, WebScan(ps, i, cs, form, slugify, parse).stop)
      invariant store.Tables() == Saved(db, voter, picked) && cs == db.candidates
      invariant formCount == |picked|
    {
      ghost var st := WebStep(ps[i], cs, form, slugify, parse);
      var n, why := RecordPosition(store, voter, ps[i], form, slugify, parse);
      WebScanAdvance(ps, i, cs, form, slugify, parse, picked);
      SavedTwice(db, voter, picked, Tag(ps[i], Found(st)));
      picked := picked + Tag(ps[i], Found(st));
      formCount := formCount + n;
      if why != Done {
        return formCount, why;
      }
      i := i + 1;
    }
    assert picked + [] == picked;
    stop := Done;
  }

  /** One more turn of `WebScan`: the rows of position `ps[i]` join those before it. */
  lemma WebScanAdvance(ps: seq<Position>, i: nat, cs: seq<Candidate>, form: Form, slugify: string -> string, parse: string -> Option<int>, picked: seq<Pick>)
    requires i < |ps|
    requires WebScan(ps, 0, cs, form, slugify, parse) ==
             Scan(picked + WebScan(ps, i, cs, form, slugify, parse).picks, WebScan(ps, i, cs, form, slugify, parse).stop)
    ensures var st := WebStep(ps[i], cs, form, slugify, parse);
            var rest := WebScan(ps, i + 1, cs, form, slugify, parse);
            var now := picked + Tag(ps[i], Found(st));
            WebScan(ps, 0, cs, form, slugify, parse) == if st.Halt? then Scan(now, st.why) else Scan(now + rest.picks, rest.stop)
  {
    var st := WebStep(ps[i], cs, form, slugify, parse);
    var rest := WebScan(ps, i + 1, cs, form, slugify, parse);
    if st.Skip? {
      assert picked + Tag(ps[i], []) == picked;
    }
    assert picked + (Tag(ps[i], Found(st)) + rest.picks) == (picked + Tag(ps[i], Found(st))) + rest.picks;
  }

  /** One turn of the loop: the form key of position `p`, its checks and its rows. */
  method RecordPosition(store: Store, voter: Id, p: Position, form: Form, slugify: string -> string, parse: string -> Option<int>)
    returns (n: nat, stop: Stop)
    modifies store
    ensures var st := WebStep(p, old(store.candidates), form, slugify, parse);
            && store.Tables() == Saved(old(store.Tables()), voter, Tag(p, Found(st)))
            && stop == StepStop(st)
            && (stop == Done ==> n == |Found(st)|)
  {
    ghost var db := store.Tables();
    var cs := store.candidates;
    var key := slugify(p.name);
    if p.maxVote > 1 {
      key := key + "[]";
    }
    assert Saved(db, voter, Tag(p, [])) == db;
    if key !in form {
      return 0, Done;
    }
    if p.maxVote > 1 {
      if |form[key]| > p.maxVote {
        return 0, OverMax(p.maxVote, p.name);
      }
      var ok;
      n, ok := RecordMany(store, voter, p, form[key], parse);
      if !ok {
        return n, Unknown;
      }
      return n, Done;
    }
    n := 1;
    if form[key] == [] {
      return n, Unknown;
    }
    var c := Lookup(cs, p, form[key][0], parse);
    if c.None? {
      return n, Unknown;
    }
    SaveVote(store, voter, p, c.value);
    assert Tag(p, [c.value]) == [(p, c.value)];
    stop := Done;
  }

  /** One turn of a loop over the values `vals`: a value that finds no candidate ends the lookups
      as failed, and a candidate joins those found so far. */
  lemma LookupsAdvance(vals: seq<string>, k: nat, p: Position, cs: seq<Candidate>, parse: string -> Option<int>, found: seq<Candidate>)
    requires k < |vals|
    requires Lookups(vals, 0, p, cs, parse) == (found + Lookups(vals, k, p, cs, parse).0, Lookups(vals, k, p, cs, parse).1)
    ensures var c := Lookup(cs, p, vals[k], parse);
            && (c.None? ==> Lookups(vals, 0, p, cs, parse) == (found, false))
            && (c.Some? ==>
                  Lookups(vals, 0, p, cs, parse) ==
                  ((found + [c.value]) + Lookups(vals, k + 1, p, cs, parse).0, Lookups(vals, k + 1, p, cs, parse).1))
  {
    var c := Lookup(cs, p, vals[k], parse);
    if c.Some? {
      var rest := Lookups(vals, k + 1, p, cs, parse);
      assert found + ([c.value] + rest.0) == (found + [c.value]) + rest.0;
    } else {
      assert found + [] == found;
    }
  }

  /** The inner loop of a multi-vote position: one row per value, up to the first unknown one. */
  method RecordMany(store: Store, voter: Id, p: Position, vals: seq<string>, parse: string -> Option<int>)
    returns (n: nat, ok: bool)
    modifies store
    ensures var r := Lookups(vals, 0, p, old(store.candidates), parse);
            && store.Tables() == Saved(old(store.Tables()), voter, Tag(p, r.0))
            && ok == r.1
            && (ok ==> n == |vals|)
  {
    ghost var db := store.Tables();
    var cs := store.candidates;
    ghost var found: seq<Candidate> := [];
    assert [] + Lookups(vals, 0, p, cs, parse).0 == Lookups(vals, 0, p, cs, parse).0;
    assert Saved(db, voter, Tag(p, [])) == db;
    n := 0;
    var k := 0;
    while k < |vals|
      invariant 0 <= k <= |vals| && n == k
      invariant Lookups(vals, 0, p, cs, parse) ==
                (found + Lookups(vals, k, p, cs, parse).0, Lookups(vals, k, p, cs, parse).1)
      invariant store.Tables() == Saved(db, voter, Tag(p, found)) && cs == db.candidates
    {
      n := n + 1;
      var c := Lookup(cs, p, vals[k], parse);
      LookupsAdvance(vals, k, p, cs, parse, found);
      if c.None? {
        return n, false;
      }
      SaveVote(store, voter, p, c.value);
      SavedTwice(db, voter, Tag(p, found), [(p, c.value)]);
      TagSnoc(p, found, c.value);
      found := found + [c.value];
      k := k + 1;
    }
    assert found + [] == found;
    ok := true;
  }

  // ---------------------------------------------------------------------------------------------
  // What a submission promises

  /** A request that is not a POST, lacks the SIN or the election key, or names no election aborts
      before any row is written. */
  lemma WebRefusesEarly(db: Db, isPost: bool, form: Form, slugify: string -> string, parse: string -> Option<int>)
    ensures var (r, reply) := WebSubmit(db, isPost, form, slugify, parse);
            (reply.Redirect? && reply.outcome in {NotPost, MissingSin, MissingElectionId, InvalidElection}) || reply.ServerError? ==> r == db
  {
    if isPost && !Absent(form, "sin") && !Absent(form, "election_id") && parse(form["election_id"][0]).Some? {
      var n := parse(form["election_id"][0]).value;
      if FindElection(db.elections, n).Some? {
        var e := FindElection(db.elections, n).value.id;
        WebReachesCast(db, isPost, form, slugify, parse, e);
        CastOutcomes(db, e, form["sin"][0], form - Reserved, form["election_id"][0], slugify, parse);
      }
    }
  }

  /** Past the election check, only the later outcomes occur. */
  lemma CastOutcomes(db: Db, e: Id, sin: string, rest: Form, arg: string, slugify: string -> string, parse: string -> Option<int>)
    ensures var reply := Cast(db, e, sin, rest, arg, slugify, parse).1;
            reply.Redirect? && reply.outcome !in {NotPost, MissingSin, MissingElectionId, InvalidElection}
  {
  }

  /** A missing SIN is reported first, and goes back to the ballot exactly when an election key came
      with it. */
  lemma WebMissingSin(db: Db, isPost: bool, form: Form, slugify: string -> string, parse: string -> Option<int>)
    ensures var reply := WebSubmit(db, isPost, form, slugify, parse).1;
            && (reply.Redirect? && reply.outcome == MissingSin <==> isPost && Absent(form, "sin"))
            && (reply.Redirect? && reply.outcome == MissingSin ==>
                  reply.to == if Absent(form, "election_id") then ToIndex else ToBallot(form["election_id"][0]))
  {
    if isPost && !Absent(form, "sin") && !Absent(form, "election_id") && parse(form["election_id"][0]).Some? {
      var n := parse(form["election_id"][0]).value;
      if FindElection(db.elections, n).Some? {
        var e := FindElection(db.elections, n).value.id;
        WebReachesCast(db, isPost, form, slugify, parse, e);
        CastOutcomes(db, e, form["sin"][0], form - Reserved, form["election_id"][0], slugify, parse);
      }
    }
  }

  /** "Invalid Election" is the answer exactly when the key coerces but names no election. */
  lemma WebInvalidElection(db: Db, isPost: bool, form: Form, slugify: string -> string, parse: string -> Option<int>)
    ensures var reply := WebSubmit(db, isPost, form, slugify, parse).1;
            reply.Redirect? && reply.outcome == InvalidElection <==>
              && isPost && !Absent(form, "sin") && !Absent(form, "election_id") && parse(form["election_id"][0]).Some?
              && forall x :: x in db.elections ==> x.id != parse(form["election_id"][0]).value
  {
    if isPost && !Absent(form, "sin") && !Absent(form, "election_id") && parse(form["election_id"][0]).Some? {
      var n := parse(form["election_id"][0]).value;
      if FindElection(db.elections, n).Some? {
        var e := FindElection(db.elections, n).value.id;
        WebReachesCast(db, isPost, form, slugify, parse, e);
        CastOutcomes(db, e, form["sin"][0], form - Reserved, form["election_id"][0], slugify, parse);
      }
    }
  }

  /** The submission reaches the voter: a POST with a SIN and a key naming an election `e`. */
  predicate ReachesVoter(db: Db, isPost: bool, form: Form, parse: string -> Option<int>, e: Id) {
    && isPost && !Absent(form, "sin") && !Absent(form, "election_id")
    && parse(form["election_id"][0]) == Some(e as int)
    && FindElection(db.elections, e).Some?
  }

  lemma WebReachesCast(db: Db, isPost: bool, form: Form, slugify: string -> string, parse: string -> Option<int>, e: Id)
    requires ReachesVoter(db, isPost, form, parse, e)
    ensures WebSubmit(db, isPost, form, slugify, parse) ==
            Cast(db, e, form["sin"][0], form - Reserved, form["election_id"][0], slugify, parse)
  {
  }

  /** A voter recorded as having voted is turned away and nothing is written. */
  lemma WebAlreadyVoted(db: Db, e: Id, sin: string, rest: Form, arg: string, slugify: string -> string, parse: string -> Option<int>)
    requires Valid(db)
    ensures var (r, reply) := Cast(db, e, sin, rest, arg, slugify, parse);
            && (reply == Redirect(AlreadyVoted, ToBallot(arg)) <==>
                  exists v :: v in db.voters && v.sin == sin && v.election == e && v.voted)
            && (reply == Redirect(AlreadyVoted, ToBallot(arg)) ==> r == db)
  {
    GetOrCreateVoted(db, sin, e);
    var (db1, voter) := GetOrCreate(db, sin, e);
    if !voter.voted && |rest| != 0 {
      RecordNeverAlreadyVoted(db1, voter.id, WebScan(PositionsOf(db1.positions, e), 0, db1.candidates, rest, slugify, parse), arg);
    }
  }

  /** The voter found is marked as having voted exactly when some voter of this SIN and election
      is; an existing voter is used as it is. */
  lemma GetOrCreateVoted(db: Db, sin: string, e: Id)
    requires Valid(db)
    ensures GetOrCreate(db, sin, e).1.voted <==> exists v :: v in db.voters && v.sin == sin && v.election == e && v.voted
    ensures GetOrCreate(db, sin, e).1.voted ==> GetOrCreate(db, sin, e).0 == db
  {
    match VoterBySin(db.voters, sin, e)
    case Some(j) =>
      if exists v :: v in db.voters && v.sin == sin && v.election == e && v.voted {
        var v :| v in db.voters && v.sin == sin && v.election == e && v.voted;
        var a :| 0 <= a < |db.voters| && db.voters[a] == v;
        assert VoterKey(db.voters[a]) == VoterKey(db.voters[j]);
      }
    case None =>
  }

  lemma RecordNeverAlreadyVoted(db1: Db, voter: Id, scan: Scan, arg: string)
    ensures Record(db1, voter, scan, arg).1 != Redirect(AlreadyVoted, ToBallot(arg))
  {
  }

  /** The voter is got or created before the selections are looked at: every later refusal leaves a
      voter of this SIN and election that is not marked as having voted. */
  lemma WebVoterCreatedFirst(db: Db, e: Id, sin: string, rest: Form, arg: string, slugify: string -> string, parse: string -> Option<int>)
    requires Valid(db)
    ensures var (r, reply) := Cast(db, e, sin, rest, arg, slugify, parse);
            && (reply.outcome in {NoSelection, BadCandidate, TryAgain} || reply.outcome.TooMany? ==>
                  exists v :: v in r.voters && v.sin == sin && v.election == e && !v.voted)
            && (reply.outcome == NoSelection <==>
                  (forall v :: v in db.voters && v.sin == sin && v.election == e ==> !v.voted) && |rest| == 0)
  {
    var (db1, voter) := GetOrCreate(db, sin, e);
    WebAlreadyVoted(db, e, sin, rest, arg, slugify, parse);
    if !voter.voted && |rest| != 0 {
      var scan := WebScan(PositionsOf(db1.positions, e), 0, db1.candidates, rest, slugify, parse);
      var db2 := Saved(db1, voter.id, scan.picks);
      assert voter in db2.voters;
      if scan.stop == Done && |RowsOfVoter(db2.votes, voter.id)| != |scan.picks| {
        assert voter in db2.(votes := RowsNotOfVoter(db2.votes, voter.id)).voters;
      }
    }
  }

  /** After the loop: a stop keeps every row saved so far and the voter unmarked; a full run marks
      the voter exactly when it had no rows before, and otherwise deletes all of its rows. */
  lemma RecordOutcome(db1: Db, voter: Id, scan: Scan, arg: string)
    ensures var (r, reply) := Record(db1, voter, scan, arg);
            && (scan.stop != Done ==> r == Saved(db1, voter, scan.picks))
            && (reply.outcome == Thanks <==> scan.stop == Done && RowsOfVoter(db1.votes, voter) == [])
            && (reply.outcome == TryAgain <==> scan.stop == Done && RowsOfVoter(db1.votes, voter) != [])
            && (reply.outcome == Thanks ==>
                  r == Saved(db1, voter, scan.picks).(voters := MarkVoted(db1.voters, voter)))
            && (reply.outcome == TryAgain ==>
                  && RowsOfVoter(r.votes, voter) == []
                  && RowsNotOfVoter(r.votes, voter) == RowsNotOfVoter(db1.votes, voter)
                  && r.voters == db1.voters)
  {
    SavedRowsOfVoter(db1, voter, scan.picks);
    var db2 := Saved(db1, voter, scan.picks);
    FilterTwice(db2.votes, voter);
  }

  /** Deleting a voter's rows leaves none of them, and deleting again changes nothing. */
  lemma FilterTwice(rows: seq<VoteRow>, voter: Id)
    ensures RowsOfVoter(RowsNotOfVoter(rows, voter), voter) == []
    ensures RowsNotOfVoter(RowsNotOfVoter(rows, voter), voter) == RowsNotOfVoter(rows, voter)
  {
    FilterNone(RowsNotOfVoter(rows, voter), OfVoter(voter));
    FilterKeepsAll(RowsNotOfVoter(rows, voter), NotOfVoter(voter));
  }

  /** A submission keeps every table constraint. */
  lemma WebSubmitValid(db: Db, isPost: bool, form: Form, slugify: string -> string, parse: string -> Option<int>)
    requires Valid(db)
    ensures Valid(WebSubmit(db, isPost, form, slugify, parse).0)
  {
    if isPost && !Absent(form, "sin") && !Absent(form, "election_id") && parse(form["election_id"][0]).Some? {
      var n := parse(form["election_id"][0]).value;
      if FindElection(db.elections, n).Some? {
        var e := FindElection(db.elections, n).value.id;
        WebReachesCast(db, isPost, form, slugify, parse, e);
        CastValid(db, e, form["sin"][0], form - Reserved, form["election_id"][0], slugify, parse);
      }
    }
  }

  lemma CastValid(db: Db, e: Id, sin: string, rest: Form, arg: string, slugify: string -> string, parse: string -> Option<int>)
    requires Valid(db) && e in ElectionIds(db.elections)
    ensures Valid(Cast(db, e, sin, rest, arg, slugify, parse).0)
  {
    GetOrCreateValid(db, sin, e);
    var (db1, voter) := GetOrCreate(db, sin, e);
    if !voter.voted && |rest| != 0 {
      var ps := PositionsOf(db1.positions, e);
      var scan := WebScan(ps, 0, db1.candidates, rest, slugify, parse);
      WebScanPicks(ps, 0, db1.candidates, rest, slugify, parse);
      PicksWiden(scan.picks, ps, db1.positions, db1.candidates);
      RecordValid(db1, voter.id, scan, arg);
    }
  }

  /** What follows the loop keeps every table constraint. */
  lemma RecordValid(db1: Db, voter: Id, scan: Scan, arg: string)
    requires Valid(db1) && voter in VoterIds(db1.voters) && PicksFrom(scan.picks, db1.positions, db1.candidates)
    ensures Valid(Record(db1, voter, scan, arg).0)
  {
    SavedValid(db1, voter, scan.picks);
    var db2 := Saved(db1, voter, scan.picks);
    DropVoterRowsValid(db2, voter);
    MarkVotedValid(db2, voter);
  }

  /** Getting or creating a voter keeps every table constraint. */
  lemma GetOrCreateValid(db: Db, sin: string, e: Id)
    requires Valid(db) && e in ElectionIds(db.elections)
    ensures Valid(GetOrCreate(db, sin, e).0)
    ensures GetOrCreate(db, sin, e).1.id in VoterIds(GetOrCreate(db, sin, e).0.voters)
  {
    var (r, v) := GetOrCreate(db, sin, e);
    if VoterBySin(db.voters, sin, e).None? {
      assert r.voters == db.voters + [v];
      forall a, b | 0 <= a < b < |r.voters| ensures VoterId(r.voters[a]) != VoterId(r.voters[b]) && VoterKey(r.voters[a]) != VoterKey(r.voters[b]) {
        if b == |db.voters| {
          assert r.voters[a] in db.voters;
        }
      }
      assert VoterIds(r.voters) == VoterIds(db.voters) + {v.id};
    }
  }

  // ---------------------------------------------------------------------------------------------
  // preview_vote

  /** `PreviewCrash`: a request that is not a POST reads `output`, which was never assigned.
      `Refused`: the election key is missing or does not coerce; the message is sent as the list,
      with the error flag set. `Previewed`: the error flag and the blocks; the message of an error
      met in the loop is kept in a variable that is never sent. */
  datatype Preview = PreviewCrash | Refused(message: string) | Previewed(error: bool, lines: seq<Line>)

  /** The candidates found among `vals[k..]`, in order, skipping the unknown values, and whether
      some value was unknown. */
  function PreviewMany(vals: seq<string>, k: nat, p: Position, cs: seq<Candidate>, parse: string -> Option<int>): (seq<Candidate>, bool)
    requires k <= |vals|
    decreases |vals| - k
  {
    if k == |vals| then ([], false)
    else
      var rest := PreviewMany(vals, k + 1, p, cs, parse);
      match Lookup(cs, p, vals[k], parse)
      case None => (rest.0, true)
      case Some(c) => ([c] + rest.0, rest.1)
  }

  /** One position of the preview: whether it sets the error flag, and its block. */
  function PreviewStep(p: Position, cs: seq<Candidate>, form: Form, slugify: string -> string, parse: string -> Option<int>): (bool, seq<Line>) {
    var key := Ballot.FieldKey(p, slugify);
    if key !in form then (false, [])
    else if p.maxVote > 1 then
      if |form[key]| > p.maxVote then (true, [])
      else
        var r := PreviewMany(form[key], 0, p, cs, parse);
        (r.1, [Line(p, r.0)])
    else if form[key] == [] then (true, [])
    else match Lookup(cs, p, form[key][0], parse)
      case None => (true, [])
      case Some(c) => (false, [Line(p, [c])])
  }

  /** The preview goes on past an error: the flag is set by any position, the blocks gathered from
      all of them. */
  function PreviewFrom(ps: seq<Position>, i: nat, cs: seq<Candidate>, form: Form, slugify: string -> string, parse: string -> Option<int>): (bool, seq<Line>)
    requires i <= |ps|
    decreases |ps| - i
  {
    if i == |ps| then (false, [])
    else
      var h := PreviewStep(ps[i], cs, form, slugify, parse);
      var t := PreviewFrom(ps, i + 1, cs, form, slugify, parse);
      (h.0 || t.0, h.1 + t.1)
  }

  function WebPreview(db: Db, isPost: bool, form: Form, slugify: string -> string, parse: string -> Option<int>): Preview {
    if !isPost then PreviewCrash
    else
      var f := form - {"csrfmiddlewaretoken"};
      if Absent(f, "election_id") then Refused("Election ID missing")
      else match parse(f["election_id"][0])
        case None => Refused("Invalid Election ID")
        case Some(n) =>
          var ps := if n < 0 then [] else PositionsOf(db.positions, n);
          var r := PreviewFrom(ps, 0, db.candidates, f, slugify, parse);
          Previewed(r.0, r.1)
  }

  /** `preview_vote` reads the tables and writes nothing. */
  method PreviewVote(store: Store, isPost: bool, form: Form, slugify: string -> string, parse: string -> Option<int>)
    returns (r: Preview)
    ensures r == WebPreview(store.Tables(), isPost, form, slugify, parse)
  {
    if !isPost {
      return PreviewCrash;
    }
    var f := form - {"csrfmiddlewaretoken"};
    var error := false;
    var output: seq<Line> := [];
    if "election_id" !in f || f["election_id"] == [] {
      return Refused("Election ID missing");
    }
    var n := parse(f["election_id"][0]);
    if n.None? {
      return Refused("Invalid Election ID");
    }
    var ps := if n.value < 0 then [] else PositionsOf(store.positions, n.value);
    var cs := store.candidates;
    var i := 0;
    assert [] + PreviewFrom(ps, 0, cs, f, slugify, parse).1 == PreviewFrom(ps, 0, cs, f, slugify, parse).1;
    while i < |ps|
      invariant 0 <= i <= |ps|
      invariant PreviewFrom(ps, 0, cs, f, slugify, parse) ==
                (error || PreviewFrom(ps, i, cs, f, slugify, parse).0, output + PreviewFrom(ps, i, cs, f, slugify, parse).1)
    {
      ghost var rest := PreviewFrom(ps, i + 1, cs, f, slugify, parse);
      var bad, lines := PreviewPosition(cs, ps[i], f, slugify, parse);
      assert output + (lines + rest.1) == (output + lines) + rest.1;
      error := error || bad;
      output := output + lines;
      i := i + 1;
    }
    assert output + [] == output;
    r := Previewed(error, output);
  }

  /** One turn of the preview loop. */
  method PreviewPosition(cs: seq<Candidate>, p: Position, f: Form, slugify: string -> string, parse: string -> Option<int>)
    returns (bad: bool, lines: seq<Line>)
    ensures (bad, lines) == PreviewStep(p, cs, f, slugify, parse)
  {
    bad, lines := false, [];
    var key := slugify(p.name);
    if p.maxVote > 1 {
      key := key + "[]";
    }
    if key in f {
      if p.maxVote > 1 {
        if |f[key]| > p.maxVote {
          bad := true;
        } else {
          var found;
          found, bad := PreviewCandidates(cs, p, f[key], parse);
          lines := [Line(p, found)];
        }
      } else if f[key] == [] {
        bad := true;
      } else {
        var c := Lookup(cs, p, f[key][0], parse);
        if c.None? {
          bad := true;
        } else {
          lines := [Line(p, [c.value])];
        }
      }
    }
  }

  /** The inner loop of a multi-vote position in the preview. */
  method PreviewCandidates(cs: seq<Candidate>, p: Position, vals: seq<string>, parse: string -> Option<int>)
    returns (found: seq<Candidate>, bad: bool)
    ensures (found, bad) == PreviewMany(vals, 0, p, cs, parse)
  {
    found, bad := [], false;
    var k := 0;
    assert [] + PreviewMany(vals, 0, p, cs, parse).0 == PreviewMany(vals, 0, p, cs, parse).0;
    while k < |vals|
      invariant 0 <= k <= |vals|
      invariant PreviewMany(vals, 0, p, cs, parse) ==
                (found + PreviewMany(vals, k, p, cs, parse).0, bad || PreviewMany(vals, k, p, cs, parse).1)
    {
      var c := Lookup(cs, p, vals[k], parse);
      if c.None? {
        bad := true;
      } else {
        assert found + ([c.value] + PreviewMany(vals, k + 1, p, cs, parse).0) == (found + [c.value]) + PreviewMany(vals, k + 1, p, cs, parse).0;
        found := found + [c.value];
      }
      k := k + 1;
    }
    assert found + [] == found;
  }

  // ---------------------------------------------------------------------------------------------
  // The preview mirrors the submission

  lemma {:induction false} PreviewManyAgrees(vals: seq<string>, k: nat, p: Position, cs: seq<Candidate>, parse: string -> Option<int>)
    requires k <= |vals|
    decreases |vals| - k
    ensures PreviewMany(vals, k, p, cs, parse).1 <==> !Lookups(vals, k, p, cs, parse).1
    ensures !PreviewMany(vals, k, p, cs, parse).1 ==> PreviewMany(vals, k, p, cs, parse).0 == Lookups(vals, k, p, cs, parse).0
  {
    if k < |vals| {
      PreviewManyAgrees(vals, k + 1, p, cs, parse);
    }
  }

  /** One position: the preview flags an error exactly where the submission stops, and shows
      otherwise the candidates the submission saves. */
  lemma PreviewStepAgrees(p: Position, cs: seq<Candidate>, form: Form, slugify: string -> string, parse: string -> Option<int>)
    ensures var h := PreviewStep(p, cs, form, slugify, parse);
            var st := WebStep(p, cs, form, slugify, parse);
            && (h.0 <==> st.Halt?)
            && (st.Halt? ==> st.why != Done)
            && (!h.0 ==> Flatten(h.1) == Tag(p, Found(st)))
  {
    var key := Ballot.FieldKey(p, slugify);
    if key in form && p.maxVote > 1 && |form[key]| <= p.maxVote {
      PreviewManyAgrees(form[key], 0, p, cs, parse);
      var r := PreviewMany(form[key], 0, p, cs, parse);
      assert [Line(p, r.0)][1..] == [];
    } else if key in form && p.maxVote <= 1 && form[key] != [] {
      var c := Lookup(cs, p, form[key][0], parse);
      if c.Some? {
        assert [Line(p, [c.value])][1..] == [];
      }
    }
  }

  /** On the same form, the preview sets its error flag exactly when the submission would stop
      early, and when it does not, its blocks list exactly the rows the submission saves. It does
      not stop at the first error, so its blocks may list more than a stopped submission saved. */
  lemma {:induction false} PreviewAgrees(ps: seq<Position>, i: nat, cs: seq<Candidate>, form: Form, slugify: string -> string, parse: string -> Option<int>)
    requires i <= |ps|
    decreases |ps| - i
    ensures var pv := PreviewFrom(ps, i, cs, form, slugify, parse);
            var sc := WebScan(ps, i, cs, form, slugify, parse);
            && (pv.0 <==> sc.stop != Done)
            && (!pv.0 ==> Flatten(pv.1) == sc.picks)
  {
    if i < |ps| {
      PreviewAgrees(ps, i + 1, cs, form, slugify, parse);
      PreviewStepAgrees(ps[i], cs, form, slugify, parse);
      var h := PreviewStep(ps[i], cs, form, slugify, parse);
      var t := PreviewFrom(ps, i + 1, cs, form, slugify, parse);
      FlattenAppend(h.1, t.1);
      var r := WebScan(ps, i + 1, cs, form, slugify, parse);
      assert PreviewFrom(ps, i, cs, form, slugify, parse) == (h.0 || t.0, h.1 + t.1);
      match WebStep(ps[i], cs, form, slugify, parse)
      case Skip =>
        assert WebScan(ps, i, cs, form, slugify, parse) == r;
      case Take(found) =>
        assert WebScan(ps, i, cs, form, slugify, parse) == Scan(Tag(ps[i], found) + r.picks, r.stop);
      case Halt(found, why) =>
        assert WebScan(ps, i, cs, form, slugify, parse) == Scan(Tag(ps[i], found), why);
    }
  }

  /** Two forms that agree at the keys of the positions `ps[i..]`. */
  ghost predicate AgreeOn(ps: seq<Position>, i: nat, f: Form, g: Form, slugify: string -> string) {
    forall j :: i <= j < |ps| ==>
      var key := Ballot.FieldKey(ps[j], slugify);
      (key in f <==> key in g) && (key in f ==> f[key] == g[key])
  }

  /** The scan reads a form only at its positions' keys. */
  lemma {:induction false} WebScanReadsKeys(ps: seq<Position>, i: nat, cs: seq<Candidate>, f: Form, g: Form, slugify: string -> string, parse: string -> Option<int>)
    requires i <= |ps| && AgreeOn(ps, i, f, g, slugify)
    decreases |ps| - i
    ensures WebScan(ps, i, cs, f, slugify, parse) == WebScan(ps, i, cs, g, slugify, parse)
  {
    if i < |ps| {
      WebScanReadsKeys(ps, i + 1, cs, f, g, slugify, parse);
      assert WebStep(ps[i], cs, f, slugify, parse) == WebStep(ps[i], cs, g, slugify, parse);
    }
  }

  /** From a request to the end, for a voter who may still vote and a form that names no position
      by a reserved key: the preview sets its error flag exactly when the submission stops with
      "too many" or an unknown candidate, and when it does not, the submission thanks the voter
      after saving exactly the rows the preview's blocks list, or turns them away to try again. */
  lemma WebPreviewMatchesSubmit(db: Db, form: Form, slugify: string -> string, parse: string -> Option<int>)
    requires Valid(db)
    requires !Absent(form, "sin") && !Absent(form, "election_id")
    requires parse(form["election_id"][0]).Some?
    requires FindElection(db.elections, parse(form["election_id"][0]).value).Some?
    requires forall v :: v in db.voters && v.sin == form["sin"][0] && v.election == parse(form["election_id"][0]).value ==> !v.voted
    requires |form - Reserved| > 0
    requires forall p :: p in PositionsOf(db.positions, parse(form["election_id"][0]).value) ==> Ballot.FieldKey(p, slugify) !in Reserved
    ensures var pv := WebPreview(db, true, form, slugify, parse);
            var sb := WebSubmit(db, true, form, slugify, parse);
            && pv.Previewed? && sb.1.Redirect?
            && (pv.error <==> sb.1.outcome.TooMany? || sb.1.outcome == BadCandidate)
            && (!pv.error ==> sb.1.outcome == Thanks || sb.1.outcome == TryAgain)
            && (sb.1.outcome == Thanks ==>
                  exists v :: v in sb.0.voters && v.sin == form["sin"][0] && v.voted &&
                              sb.0.votes == db.votes + NewRows(db.nextVoteId, v.id, Flatten(pv.lines)))
  {
    var n := parse(form["election_id"][0]).value;
    var sin := form["sin"][0];
    var ps := PositionsOf(db.positions, n);
    var f := form - {"csrfmiddlewaretoken"};
    var rest := form - Reserved;
    var db1, voter := SubmitReachesRecord(db, form, slugify, parse);
    PreviewOfElection(db, form, slugify, parse);
    assert AgreeOn(ps, 0, rest, f, slugify) by {
      forall j | 0 <= j < |ps| ensures Ballot.FieldKey(ps[j], slugify) !in Reserved {
        assert ps[j] in ps;
      }
    }
    WebScanReadsKeys(ps, 0, db.candidates, rest, f, slugify, parse);
    PreviewAgrees(ps, 0, db.candidates, f, slugify, parse);
    RecordMatchesPreview(db1, voter, WebScan(ps, 0, db.candidates, rest, slugify, parse),
                         PreviewFrom(ps, 0, db.candidates, f, slugify, parse), form["election_id"][0]);
  }

  /** Such a request reaches the loop over the election's positions with an unvoted voter. */
  lemma SubmitReachesRecord(db: Db, form: Form, slugify: string -> string, parse: string -> Option<int>) returns (db1: Db, voter: Voter)
    requires Valid(db)
    requires !Absent(form, "sin") && !Absent(form, "election_id")
    requires parse(form["election_id"][0]).Some?
    requires FindElection(db.elections, parse(form["election_id"][0]).value).Some?
    requires forall v :: v in db.voters && v.sin == form["sin"][0] && v.election == parse(form["election_id"][0]).value ==> !v.voted
    requires |form - Reserved| > 0
    ensures var n := parse(form["election_id"][0]).value;
            && voter in db1.voters && voter.sin == form["sin"][0]
            && db1.positions == db.positions && db1.candidates == db.candidates
            && db1.votes == db.votes && db1.nextVoteId == db.nextVoteId
            && WebSubmit(db, true, form, slugify, parse) ==
               Record(db1, voter.id, WebScan(PositionsOf(db.positions, n), 0, db.candidates, form - Reserved, slugify, parse), form["election_id"][0])
  {
    var n := parse(form["election_id"][0]).value;
    var e := FindElection(db.elections, n).value.id;
    WebReachesCast(db, true, form, slugify, parse, e);
    GetOrCreateVoted(db, form["sin"][0], e);
    db1, voter := GetOrCreate(db, form["sin"][0], e).0, GetOrCreate(db, form["sin"][0], e).1;
  }

  /** Such a request is previewed over the election's positions and the form minus its token. */
  lemma PreviewOfElection(db: Db, form: Form, slugify: string -> string, parse: string -> Option<int>)
    requires !Absent(form, "election_id")
    requires parse(form["election_id"][0]).Some?
    requires FindElection(db.elections, parse(form["election_id"][0]).value).Some?
    ensures var n := parse(form["election_id"][0]).value;
            var r := PreviewFrom(PositionsOf(db.positions, n), 0, db.candidates, form - {"csrfmiddlewaretoken"}, slugify, parse);
            WebPreview(db, true, form, slugify, parse) == Previewed(r.0, r.1)
  {
  }

  /** What follows the loop, against a preview that agrees with its scan. */
  lemma RecordMatchesPreview(db1: Db, voter: Voter, scan: Scan, pv: (bool, seq<Line>), arg: string)
    requires voter in db1.voters
    requires (pv.0 <==> scan.stop != Done) && (!pv.0 ==> Flatten(pv.1) == scan.picks)
    ensures var r := Record(db1, voter.id, scan, arg);
            && r.1.Redirect?
            && (pv.0 <==> r.1.outcome.TooMany? || r.1.outcome == BadCandidate)
            && (!pv.0 ==> r.1.outcome == Thanks || r.1.outcome == TryAgain)
            && (r.1.outcome == Thanks ==>
                  exists v :: v in r.0.voters && v.sin == voter.sin && v.voted &&
                              r.0.votes == db1.votes + NewRows(db1.nextVoteId, v.id, Flatten(pv.1)))
  {
    var r := Record(db1, voter.id, scan, arg);
    if r.1.outcome == Thanks {
      var vs := MarkVoted(db1.voters, voter.id);
      var a :| 0 <= a < |db1.voters| && db1.voters[a] == voter;
      assert vs[a] == voter.(voted := true);
      assert r.0.voters == vs && vs[a] in r.0.voters;
    }
  }
}
