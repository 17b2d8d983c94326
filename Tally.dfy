/** Vote counting and winner derivation of the results report (administrator/views.py,
    `find_n_winners` and `PrintView.get_context_data`). */
module Tally {
  import opened Models

  /** One entry of `candidate_data`: a candidate's full name and its number of vote rows. */
  datatype Entry = Entry(name: string, votes: nat)

  /** Index of the first entry with the largest count: what Python's `max(..., key=...)` returns,
      since it only replaces its running maximum by a strictly larger one. */
  function FirstMaxIndex(s: seq<Entry>): (m: nat)
    requires |s| > 0
    ensures m < |s|
  {
    MaxFrom(s, 1, 0)
  }

  function MaxFrom(s: seq<Entry>, i: nat, best: nat): (m: nat)
    requires best < i <= |s|
    ensures m < |s|
    decreases |s| - i
  {
    if i == |s| then best else MaxFrom(s, i + 1, if s[i].votes > s[best].votes then i else best)
  }

  lemma {:induction false} FirstMaxIsMax(s: seq<Entry>)
    requires |s| > 0
    ensures forall j :: 0 <= j < |s| ==> s[j].votes <= s[FirstMaxIndex(s)].votes
    ensures forall j :: 0 <= j < FirstMaxIndex(s) ==> s[j].votes < s[FirstMaxIndex(s)].votes
  {
    MaxFromIsMax(s, 1, 0);
  }

  lemma {:induction false} MaxFromIsMax(s: seq<Entry>, i: nat, best: nat)
    requires best < i <= |s|
    requires forall j :: 0 <= j < i ==> s[j].votes <= s[best].votes
    requires forall j :: 0 <= j < best ==> s[j].votes < s[best].votes
    ensures forall j :: 0 <= j < |s| ==> s[j].votes <= s[MaxFrom(s, i, best)].votes
    ensures forall j :: 0 <= j < MaxFrom(s, i, best) ==> s[j].votes < s[MaxFrom(s, i, best)].votes
    decreases |s| - i
  {
    if i < |s| {
      MaxFromIsMax(s, i + 1, if s[i].votes > s[best].votes then i else best);
    }
  }

  /** Python's `list.remove(x)`: drop the first element equal to `x`. */
  function RemoveFirst(s: seq<Entry>, x: Entry): seq<Entry> {
    if s == [] then []
    else if s[0] == x then s[1..]
    else [s[0]] + RemoveFirst(s[1..], x)
  }

  /** Removing the first maximum by value removes exactly the entry at its index: every earlier
      entry has fewer votes, so none of them equals it. */
  lemma {:induction false} RemoveFirstMax(s: seq<Entry>)
    requires |s| > 0
    ensures RemoveFirst(s, s[FirstMaxIndex(s)]) == Rest(s)
  {
    var m := FirstMaxIndex(s);
    FirstMaxIsMax(s);
    RemoveBefore(s, m);
  }

  lemma {:induction false} RemoveBefore(s: seq<Entry>, m: nat)
    requires m < |s|
    requires forall j :: 0 <= j < m ==> s[j] != s[m]
    ensures RemoveFirst(s, s[m]) == s[..m] + s[m + 1..]
  {
    if m > 0 {
      var t := s[1..];
      assert t[m - 1] == s[m];
      forall j | 0 <= j < m - 1 ensures t[j] != t[m - 1] {
        assert t[j] == s[j + 1];
      }
      RemoveBefore(t, m - 1);
      assert s[..m] == [s[0]] + t[..m - 1];
      assert s[m + 1..] == t[m..];
    }
  }

  /** The entries that have exactly `v` votes, in their order. */
  function WithVotes(s: seq<Entry>, v: nat): seq<Entry> {
    Filter(s, HasVotes(v))
  }

  function HasVotes(v: nat): Entry -> bool {
    (e: Entry) => e.votes == v
  }

  /** The entries left after removing the first maximum. */
  function Rest(s: seq<Entry>): (r: seq<Entry>)
    requires |s| > 0
    ensures |r| == |s| - 1
  {
    s[..FirstMaxIndex(s)] + s[FirstMaxIndex(s) + 1..]
  }

  /** The first maximum and the entries left after it is removed make up the input. */
  lemma RestMultiset(s: seq<Entry>)
    requires |s| > 0
    ensures multiset(s) == multiset(Rest(s)) + multiset{s[FirstMaxIndex(s)]}
  {
    RemoveAtMultiset(s, FirstMaxIndex(s));
  }

  /** The first maximum has at least the votes of every entry left after it is removed. */
  lemma RestBelow(s: seq<Entry>)
    requires |s| > 0
    ensures forall x :: x in Rest(s) ==> x.votes <= s[FirstMaxIndex(s)].votes
  {
    FirstMaxIsMax(s);
  }

  /** Greedy top-N selection without replacement: the specification of `find_n_winners`. */
  function TopN(s: seq<Entry>, n: int): seq<Entry>
    decreases |s|
  {
    if n <= 0 || s == [] then [] else [s[FirstMaxIndex(s)]] + TopN(Rest(s), n - 1)
  }

  /** One round of the selection. */
  lemma TopNCons(s: seq<Entry>, n: int)
    requires n > 0 && s != []
    ensures TopN(s, n) == [s[FirstMaxIndex(s)]] + TopN(Rest(s), n - 1)
  {
  }

  /** `find_n_winners(data, n)`: it copies `data` (so `data` is not modified; it is not in the
      frame) and repeats `n` times: pick the first maximum of the copy, append it, remove it.
      The string the source joins from the picks is left to the caller. */
  method FindNWinners(data: array<Entry>, n: int) returns (winners: seq<Entry>)
    ensures winners == TopN(data[..], n)
  {
    winners := [];
    var candidateData := data[..];
    var i := 0;
    while i < n
      invariant 0 <= i && (n >= 0 ==> i <= n)
      invariant winners + TopN(candidateData, n - i) == TopN(data[..], n)
      decreases n - i
    {
      if |candidateData| == 0 {
        i := i + 1;
        continue;
      }
      var thisWinner := candidateData[FirstMaxIndex(candidateData)];
      RemoveFirstMax(candidateData);
      winners := winners + [thisWinner];
      candidateData := RemoveFirst(candidateData, thisWinner);
      i := i + 1;
    }
  }

  /** At most `n` picks, and no more picks than entries. */
  lemma {:induction false} TopNLength(s: seq<Entry>, n: int)
    ensures |TopN(s, n)| == if n <= 0 then 0 else if n < |s| then n else |s|
    decreases |s|
  {
    if n > 0 && s != [] {
      TopNLength(Rest(s), n - 1);
    }
  }

  /** Once the entries run out, the remaining rounds add nothing. */
  lemma {:induction false} TopNSaturates(s: seq<Entry>, n: int)
    requires n >= |s|
    ensures TopN(s, n) == TopN(s, |s|)
    decreases |s|
  {
    if s != [] {
      var rest := Rest(s);
      TopNSaturates(rest, n - 1);
      TopNSaturates(rest, |s| - 1);
    }
  }

  /** What is left of the copy once the `n` rounds are over. */
  function Leftover(s: seq<Entry>, n: int): seq<Entry>
    decreases |s|
  {
    if n <= 0 || s == [] then s else Leftover(Rest(s), n - 1)
  }

  /** The picks and the leftover entries together are exactly the input: every pick comes from
      the input, and no entry is picked more often than it occurs. */
  lemma {:induction false} TopNPartition(s: seq<Entry>, n: int)
    ensures multiset(TopN(s, n)) + multiset(Leftover(s, n)) == multiset(s)
    decreases |s|
  {
    if n > 0 && s != [] {
      TopNPartition(Rest(s), n - 1);
      PartitionStep(s, n);
    }
  }

  /** The induction step of `TopNPartition`. */
  lemma PartitionStep(s: seq<Entry>, n: int)
    requires n > 0 && s != []
    requires multiset(TopN(Rest(s), n - 1)) + multiset(Leftover(Rest(s), n - 1)) == multiset(Rest(s))
    ensures multiset(TopN(s, n)) + multiset(Leftover(s, n)) == multiset(s)
  {
    RestMultiset(s);
    TopNCons(s, n);
    BagCons(s, s[FirstMaxIndex(s)], Rest(s), TopN(Rest(s), n - 1), Leftover(Rest(s), n - 1), TopN(s, n));
  }

  lemma BagCons<T>(s: seq<T>, p: T, rest: seq<T>, t: seq<T>, left: seq<T>, r: seq<T>)
    requires r == [p] + t
    requires multiset(s) == multiset(rest) + multiset{p}
    requires multiset(t) + multiset(left) == multiset(rest)
    ensures multiset(r) + multiset(left) == multiset(s)
  {
    assert multiset(r) == multiset{p} + multiset(t);
  }

  /** Every pick is an entry of the input. */
  lemma TopNFromInput(s: seq<Entry>, n: int)
    ensures multiset(TopN(s, n)) <= multiset(s)
    ensures forall x :: x in TopN(s, n) ==> x in s
  {
    TopNPartition(s, n);
    forall x | x in TopN(s, n) ensures x in s {
      assert x in multiset(TopN(s, n));
    }
  }

  /** Every leftover entry is an entry of the input. */
  lemma {:induction false} LeftoverFromInput(s: seq<Entry>, n: int)
    ensures forall x :: x in Leftover(s, n) ==> x in s
    decreases |s|
  {
    if n > 0 && s != [] {
      LeftoverFromInput(Rest(s), n - 1);
      forall x | x in Rest(s) ensures x in s {
        RestFromInput(s, x);
      }
    }
  }

  lemma RestFromInput(s: seq<Entry>, x: Entry)
    requires |s| > 0 && x in Rest(s)
    ensures x in s
  {
    RestMultiset(s);
    assert x in multiset(Rest(s));
  }

  /** Counts never increase along `r`. */
  ghost predicate NonIncreasing(r: seq<Entry>) {
    forall i, j :: 0 <= i < j < |r| ==> r[i].votes >= r[j].votes
  }

  /** Every entry of `left` has at most the votes of every entry of `picks`. */
  ghost predicate Dominates(picks: seq<Entry>, left: seq<Entry>) {
    forall x, k :: x in left && 0 <= k < |picks| ==> x.votes <= picks[k].votes
  }

  /** Everything after the first pick has at most its votes. */
  ghost predicate Below(p: Entry, t: seq<Entry>) {
    forall x :: x in t ==> x.votes <= p.votes
  }

  lemma ConsNonIncreasing(p: Entry, t: seq<Entry>, r: seq<Entry>)
    requires r == [p] + t && NonIncreasing(t) && Below(p, t)
    ensures NonIncreasing(r)
  {
    forall i, j | 0 <= i < j < |r| ensures r[i].votes >= r[j].votes {
      assert r[j] == t[j - 1];
      if i > 0 {
        assert r[i] == t[i - 1];
      }
    }
  }

  lemma ConsDominates(p: Entry, t: seq<Entry>, r: seq<Entry>, left: seq<Entry>)
    requires r == [p] + t && Dominates(t, left) && Below(p, left)
    ensures Dominates(r, left)
  {
    forall x, k | x in left && 0 <= k < |r| ensures x.votes <= r[k].votes {
      if k > 0 {
        assert r[k] == t[k - 1];
      }
    }
  }

  /** The first maximum has at least the votes of every later pick and of every leftover entry. */
  lemma FirstIsAbove(s: seq<Entry>, n: int)
    requires |s| > 0
    ensures Below(s[FirstMaxIndex(s)], TopN(Rest(s), n))
    ensures Below(s[FirstMaxIndex(s)], Leftover(Rest(s), n))
  {
    TopNFromInput(Rest(s), n);
    LeftoverFromInput(Rest(s), n);
    RestBelow(s);
  }

  /** Picks come in non-increasing vote order. */
  lemma {:induction false} TopNSorted(s: seq<Entry>, n: int)
    ensures NonIncreasing(TopN(s, n))
    decreases |s|
  {
    if n > 0 && s != [] {
      TopNSorted(Rest(s), n - 1);
      FirstIsAbove(s, n - 1);
      TopNCons(s, n);
      ConsNonIncreasing(s[FirstMaxIndex(s)], TopN(Rest(s), n - 1), TopN(s, n));
    }
  }

  /** No entry left over has more votes than any pick. */
  lemma {:induction false} TopNBest(s: seq<Entry>, n: int)
    ensures Dominates(TopN(s, n), Leftover(s, n))
    decreases |s|
  {
    if n > 0 && s != [] {
      TopNBest(Rest(s), n - 1);
      FirstIsAbove(s, n - 1);
      TopNCons(s, n);
      ConsDominates(s[FirstMaxIndex(s)], TopN(Rest(s), n - 1), TopN(s, n), Leftover(s, n));
    }
  }

  /** Ties go to the earliest entries: among the entries with a given count, the picks are the
      first ones of the input, in input order. */
  lemma {:induction false} TopNTies(s: seq<Entry>, n: int, v: nat)
    ensures WithVotes(TopN(s, n), v) <= WithVotes(s, v)
    decreases |s|
  {
    if n > 0 && s != [] {
      TopNTies(Rest(s), n - 1, v);
      TiesRound(s, n, v);
    }
  }

  /** The induction step of `TopNTies`. */
  lemma TiesRound(s: seq<Entry>, n: int, v: nat)
    requires n > 0 && s != []
    requires WithVotes(TopN(Rest(s), n - 1), v) <= WithVotes(Rest(s), v)
    ensures WithVotes(TopN(s, n), v) <= WithVotes(s, v)
  {
    var m := FirstMaxIndex(s);
    TopNCons(s, n);
    SplitAt(s, m);
    assert HasVotes(v)(s[m]) ==> forall y :: y in s[..m] ==> !HasVotes(v)(y) by {
      FirstMaxIsMax(s);
      if s[m].votes == v {
        forall y | y in s[..m] ensures y.votes != v {
          var j :| 0 <= j < m && s[..m][j] == y;
        }
      }
    }
    TiesStep(s[..m], s[m], s[m + 1..], TopN(Rest(s), n - 1), HasVotes(v));
  }

  /** Filtering respects prefixes when the front element `x` of the picks is kept only if
      nothing before it in the input is. */
  lemma TiesStep<T(!new)>(a: seq<T>, x: T, b: seq<T>, t: seq<T>, keep: T -> bool)
    requires Filter(t, keep) <= Filter(a + b, keep)
    requires keep(x) ==> forall y :: y in a ==> !keep(y)
    ensures Filter([x] + t, keep) <= Filter(a + ([x] + b), keep)
  {
    FilterAppend3(a, [x], b, keep);
    FilterAppend(a, b, keep);
    FilterAppend([x], t, keep);
    if keep(x) {
      FilterNone(a, keep);
    }
    PrefixAround(Filter(a, keep), Filter([x], keep), Filter(b, keep), Filter(t, keep));
  }

  /** `t` is a prefix of `a + b` and `x` goes in front of `a` or `a` is empty: `x + t` stays a prefix. */
  lemma PrefixAround<T>(a: seq<T>, x: seq<T>, b: seq<T>, t: seq<T>)
    requires t <= a + b && (x == [] || a == [])
    ensures x + t <= a + (x + b)
  {
    if x != [] {
      assert a + (x + b) == x + b;
    } else {
      assert x + t == t && x + b == b;
    }
  }

  /** The report's verdict for one position. */
  datatype Winner =
    | NoCandidates                   // "Position does not have candidates"
    | Ranked(top: seq<Entry>)        // find_n_winners(candidate_data, max_vote)
    | NoVotes                        // "No one voted for this yet."
    | Tie(count: nat, votes: nat)    // "There are {count} candidates with {votes} votes"
    | Sole(name: string)             // "Winner : {name}"

  /** The winner rule of the report: positions allowing several votes are ranked, every other
      position has a single winner, a tie, or nobody voted. */
  function Decide(data: seq<Entry>, maxVote: int): (w: Winner)
    ensures w.NoCandidates? <==> |data| == 0
    ensures w.Ranked? <==> |data| > 0 && maxVote > 1
    ensures w.Ranked? ==> w.top == TopN(data, maxVote)
    ensures w.NoVotes? <==> |data| > 0 && maxVote <= 1 && forall e :: e in data ==> e.votes == 0
  {
    if |data| < 1 then NoCandidates
    else if maxVote > 1 then Ranked(TopN(data, maxVote))
    else
      FirstMaxIsMax(data);
      var top := data[FirstMaxIndex(data)];
      if top.votes == 0 then NoVotes
      else
        var count := |WithVotes(data, top.votes)|;
        if count > 1 then Tie(count, top.votes) else Sole(top.name)
  }

  /** `v` is the largest count in `data`. */
  ghost predicate IsTop(data: seq<Entry>, v: nat) {
    (exists e :: e in data && e.votes == v) && forall e :: e in data ==> e.votes <= v
  }

  /** For a single-vote position with candidates and a non-zero top count v: k > 1 entries at v
      give a tie report naming k and v; exactly one entry at v is reported by name. */
  lemma SingleWinner(data: seq<Entry>, maxVote: int, v: nat)
    requires maxVote <= 1 && IsTop(data, v) && v > 0
    ensures |WithVotes(data, v)| > 1 ==> Decide(data, maxVote) == Tie(|WithVotes(data, v)|, v)
    ensures |WithVotes(data, v)| == 1 ==>
              exists e :: e in data && e.votes == v && Decide(data, maxVote) == Sole(e.name)
  {
    var m := FirstMaxIndex(data);
    FirstMaxIsMax(data);
    var e :| e in data && e.votes == v;
    assert data[m].votes == v;
  }

  /** For a single-vote position the verdict is never a ranking, and a name is reported only when
      it is the one entry holding a positive maximum. */
  lemma {:induction false} SoleIsUnique(data: seq<Entry>, maxVote: int)
    requires Decide(data, maxVote).Sole?
    ensures exists e :: e in data && e.name == Decide(data, maxVote).name && e.votes > 0 && IsTop(data, e.votes)
              && WithVotes(data, e.votes) == [e]
  {
    var m := FirstMaxIndex(data);
    FirstMaxIsMax(data);
    var e := data[m];
    var w := WithVotes(data, e.votes);
    assert e in w;
    assert |w| == 1;
    assert w == [w[0]] && w[0] == e;
  }

  /** Entries for the candidates of one position, in table order. */
  function TallyOf(cs: seq<Candidate>, rows: seq<VoteRow>): seq<Entry> {
    seq(|cs|, k requires 0 <= k < |cs| => Entry(cs[k].fullname, CandidateVotes(rows, cs[k].id)))
  }

  /** The loop of the report that fills `candidate_data` for one position. */
  method TallyPosition(store: Store, position: Id) returns (data: seq<Entry>)
    ensures |data| == |CandidatesOf(store.candidates, position)|
    ensures forall k :: 0 <= k < |data| ==>
              data[k].name == CandidatesOf(store.candidates, position)[k].fullname &&
              data[k].votes == |RowsOfCandidate(store.votes, CandidatesOf(store.candidates, position)[k].id)|
  {
    var cs := CandidatesOf(store.candidates, position);
    data := [];
    var k := 0;
    while k < |cs|
      invariant 0 <= k <= |cs|
      invariant data == TallyOf(cs[..k], store.votes)
    {
      data := data + [Entry(cs[k].fullname, CandidateVotes(store.votes, cs[k].id))];
      k := k + 1;
    }
  }

  /** What the report shows for one position. */
  datatype PositionResult = PositionResult(name: string, tally: seq<Entry>, winner: Winner, maxVote: int)

  /** `PrintView.get_context_data`: without a selected election nothing is reported; otherwise
      every position of the election, in table order, with its tally and its verdict. The election
      title and the PDF rendering are not modelled. */
  method Results(store: Store, electionId: Option<Id>) returns (rs: seq<PositionResult>)
    ensures NoElection(electionId) ==> rs == []
    ensures !NoElection(electionId) ==>
              var ps := PositionsOf(store.positions, electionId.value);
              |rs| == |ps| &&
              forall k :: 0 <= k < |rs| ==>
                var tally := TallyOf(CandidatesOf(store.candidates, ps[k].id), store.votes);
                rs[k] == PositionResult(ps[k].name, tally, Decide(tally, ps[k].maxVote), ps[k].maxVote)
  {
    rs := [];
    if NoElection(electionId) {
      return;
    }
    var ps := PositionsOf(store.positions, electionId.value);
    var k := 0;
    while k < |ps|
      invariant 0 <= k <= |ps|
      invariant |rs| == k
      invariant forall i :: 0 <= i < k ==>
                  var tally := TallyOf(CandidatesOf(store.candidates, ps[i].id), store.votes);
                  rs[i] == PositionResult(ps[i].name, tally, Decide(tally, ps[i].maxVote), ps[i].maxVote)
    {
      var data := TallyPosition(store, ps[k].id);
      assert data == TallyOf(CandidatesOf(store.candidates, ps[k].id), store.votes);
      rs := rs + [PositionResult(ps[k].name, data, Decide(data, ps[k].maxVote), ps[k].maxVote)];
      k := k + 1;
    }
  }
}
