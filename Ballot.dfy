// Rendering a ballot (voting/views.py, generate_ballot): the election's positions are visited in
// priority order, each gets one input per candidate, and each is saved back with its rank as its
// new priority, so rendering a ballot also renumbers the election's positions 1..N.

module Ballot {
  import opened Models

  // ---------------------------------------------------------------------------------------------
  // `order_by('priority')`

  predicate InPriorityOrder(s: seq<Position>) {
    forall i, j :: 0 <= i < j < |s| ==> s[i].priority <= s[j].priority
  }

  /** Puts `p` in front of the first position whose priority is not smaller, so equal priorities
      keep their order. */
  function Insert(p: Position, s: seq<Position>): (r: seq<Position>)
    ensures |r| == |s| + 1
    ensures forall x :: x in r <==> x == p || x in s
  {
    if s == [] || p.priority <= s[0].priority then [p] + s else [s[0]] + Insert(p, s[1..])
  }

  /** A stable insertion sort on priority. The database leaves the order of equal priorities
      unspecified; this model keeps table order for them. */
  function SortByPriority(s: seq<Position>): (r: seq<Position>)
    ensures |r| == |s|
    ensures forall x :: x in r <==> x in s
  {
    if s == [] then [] else Insert(s[0], SortByPriority(s[1..]))
  }

  lemma {:induction false} InsertOrdered(p: Position, s: seq<Position>)
    requires InPriorityOrder(s)
    ensures InPriorityOrder(Insert(p, s))
  {
    if s != [] && p.priority > s[0].priority {
      InsertOrdered(p, s[1..]);
      var t := Insert(p, s[1..]);
      assert forall x :: x in t ==> s[0].priority <= x.priority;
      assert Insert(p, s) == [s[0]] + t;
    }
  }

  /** `order_by('priority')` yields the positions in non-decreasing priority. */
  lemma {:induction false} SortOrdered(s: seq<Position>)
    ensures InPriorityOrder(SortByPriority(s))
  {
    if s != [] {
      SortOrdered(s[1..]);
      InsertOrdered(s[0], SortByPriority(s[1..]));
    }
  }

  lemma {:induction false} InsertMultiset(p: Position, s: seq<Position>)
    ensures multiset(Insert(p, s)) == multiset(s) + multiset{p}
  {
    if s != [] && p.priority > s[0].priority {
      InsertMultiset(p, s[1..]);
      assert s == [s[0]] + s[1..];
    }
  }

  /** The sort only reorders: it yields the same positions, each as often as before. */
  lemma {:induction false} SortMultiset(s: seq<Position>)
    ensures multiset(SortByPriority(s)) == multiset(s)
  {
    if s != [] {
      SortMultiset(s[1..]);
      InsertMultiset(s[0], SortByPriority(s[1..]));
      assert s == [s[0]] + s[1..];
    }
  }

  lemma {:induction false} InsertDistinct(p: Position, s: seq<Position>)
    requires Distinct(s, PositionId) && forall x :: x in s ==> x.id != p.id
    ensures Distinct(Insert(p, s), PositionId)
  {
    if s != [] && p.priority > s[0].priority {
      InsertDistinct(p, s[1..]);
      var t := Insert(p, s[1..]);
      assert forall x :: x in t ==> x.id != s[0].id;
      assert Insert(p, s) == [s[0]] + t;
    }
  }

  /** Sorting keys that are unique leaves them unique. */
  lemma {:induction false} SortDistinct(s: seq<Position>)
    requires Distinct(s, PositionId)
    ensures Distinct(SortByPriority(s), PositionId)
  {
    if s != [] {
      assert forall x :: x in s[1..] ==> x.id != s[0].id;
      SortDistinct(s[1..]);
      InsertDistinct(s[0], SortByPriority(s[1..]));
    }
  }

  // ---------------------------------------------------------------------------------------------
  // Renumbering

  /** `position.priority = n; position.save()`: the row with this key gets priority `n`. */
  function SetPriority(ps: seq<Position>, id: Id, n: int): (r: seq<Position>)
    ensures |r| == |ps|
  {
    seq(|ps|, j requires 0 <= j < |ps| => if ps[j].id == id then ps[j].(priority := n) else ps[j])
  }

  /** The table after the first `k` positions of `order` have been saved with priorities 1..k. */
  function Renumbered(ps: seq<Position>, order: seq<Position>, k: nat): (r: seq<Position>)
    requires k <= |order|
    ensures |r| == |ps|
  {
    if k == 0 then ps else SetPriority(Renumbered(ps, order, k - 1), order[k - 1].id, k)
  }

  /** Renumbering touches priorities only. */
  lemma {:induction false} RenumberedShape(ps: seq<Position>, order: seq<Position>, k: nat, j: nat)
    requires k <= |order| && j < |ps|
    ensures Renumbered(ps, order, k)[j] == ps[j].(priority := Renumbered(ps, order, k)[j].priority)
  {
    if k > 0 {
      RenumberedShape(ps, order, k - 1, j);
    }
  }

  /** A row whose position is at rank t < k of `order` now has priority t + 1. */
  lemma {:induction false} RenumberedRank(ps: seq<Position>, order: seq<Position>, k: nat, t: nat, j: nat)
    requires Distinct(order, PositionId)
    requires t < k <= |order| && j < |ps| && order[t].id == ps[j].id
    ensures Renumbered(ps, order, k)[j] == ps[j].(priority := t + 1)
  {
    if t < k - 1 {
      RenumberedRank(ps, order, k - 1, t, j);
      assert order[k - 1].id != order[t].id;
    } else {
      RenumberedShape(ps, order, k - 1, j);
    }
  }

  /** A row whose position is not among the first k of `order` is as it was. */
  lemma {:induction false} RenumberedUntouched(ps: seq<Position>, order: seq<Position>, k: nat, j: nat)
    requires k <= |order| && j < |ps| && forall t :: 0 <= t < k ==> order[t].id != ps[j].id
    ensures Renumbered(ps, order, k)[j] == ps[j]
  {
    if k > 0 {
      RenumberedUntouched(ps, order, k - 1, j);
      RenumberedShape(ps, order, k - 1, j);
    }
  }

  // ---------------------------------------------------------------------------------------------
  // Inputs

  datatype Widget = Checkbox | Radio
  /** One `<input>`: its value is the candidate's key and its `name` is the form key. */
  datatype Input = Input(candidate: Id, widget: Widget, key: string)
  datatype Section = Section(position: Id, inputs: seq<Input>)
  /** `Unbound`: the first position has no candidates, so `instruction` was never assigned and
      building its section raises. */
  datatype BallotResult = Rendered(sections: seq<Section>) | Unbound

  /** The form key a position's inputs are named by. */
  function FieldKey(p: Position, slugify: string -> string): string {
    if p.maxVote > 1 then slugify(p.name) + "[]" else slugify(p.name)
  }

  function WidgetOf(p: Position): Widget {
    if p.maxVote > 1 then Checkbox else Radio
  }

  function InputOf(p: Position, c: Candidate, slugify: string -> string): Input {
    Input(c.id, WidgetOf(p), FieldKey(p, slugify))
  }

  function SectionOf(p: Position, cs: seq<Candidate>, slugify: string -> string): Section {
    var cands := CandidatesOf(cs, p.id);
    Section(p.id, seq(|cands|, t requires 0 <= t < |cands| => InputOf(p, cands[t], slugify)))
  }

  /** Every input is a checkbox named `slug[]` for a multi-vote position and a radio button named
      `slug` otherwise, and there is one input per candidate of the position, in table order. */
  lemma SectionInputs(p: Position, cs: seq<Candidate>, slugify: string -> string)
    ensures var s := SectionOf(p, cs, slugify);
            && s.position == p.id
            && |s.inputs| == |CandidatesOf(cs, p.id)|
            && forall t :: 0 <= t < |s.inputs| ==>
                 && s.inputs[t].candidate == CandidatesOf(cs, p.id)[t].id
                 && (p.maxVote > 1 ==> s.inputs[t].widget == Checkbox && s.inputs[t].key == slugify(p.name) + "[]")
                 && (p.maxVote <= 1 ==> s.inputs[t].widget == Radio && s.inputs[t].key == slugify(p.name))
  {
  }

  // ---------------------------------------------------------------------------------------------
  // generate_ballot

  /** What rendering the ballot of election `e` leaves behind and yields. */
  function GenerateBallotSpec(db: Db, e: Id, slugify: string -> string): (Db, BallotResult) {
    var order := SortByPriority(PositionsOf(db.positions, e));
    if |order| > 0 && CandidatesOf(db.candidates, order[0].id) == [] then (db, Unbound)
    else
      (db.(positions := Renumbered(db.positions, order, |order|)),
       Rendered(seq(|order|, t requires 0 <= t < |order| => SectionOf(order[t], db.candidates, slugify))))
  }

  method GenerateBallot(store: Store, e: Id, slugify: string -> string) returns (r: BallotResult)
    modifies store
    ensures (store.Tables(), r) == GenerateBallotSpec(old(store.Tables()), e, slugify)
  {
    ghost var db := store.Tables();
    var order := SortByPriority(PositionsOf(store.positions, e));
    var sections, bound := RenderPositions(store, order, slugify);
    if !bound {
      BallotSpecUnbound(db, e, slugify);
      return Unbound;
    }
    BallotSpecRendered(db, e, slugify, sections);
    r := Rendered(sections);
  }

  /** The loop over the positions in `order`: each gets its section and is saved with its rank,
      until a first position without candidates stops it before anything is saved. */
  method RenderPositions(store: Store, order: seq<Position>, slugify: string -> string)
    returns (sections: seq<Section>, bound: bool)
    modifies store
    ensures bound <==> !(|order| > 0 && CandidatesOf(old(store.candidates), order[0].id) == [])
    ensures !bound ==> store.Tables() == old(store.Tables())
    ensures bound ==> store.Tables() == old(store.Tables()).(positions := Renumbered(old(store.positions), order, |order|))
    ensures bound ==> |sections| == |order| &&
                      forall t :: 0 <= t < |order| ==> sections[t] == SectionOf(order[t], old(store.candidates), slugify)
  {
    ghost var db := store.Tables();
    var cs := store.candidates;
    sections := [];
    var instructionBound := false;
    var num := 1;
    var i := 0;
    while i < |order|
      invariant 0 <= i <= |order| && num == i + 1
      invariant instructionBound == (i > 0)
      invariant i > 0 ==> CandidatesOf(cs, order[0].id) != []
      invariant store.Tables() == db.(positions := Renumbered(db.positions, order, i))
      invariant |sections| == i && forall t :: 0 <= t < i ==> sections[t] == SectionOf(order[t], cs, slugify)
    {
      var cands := CandidatesOf(cs, order[i].id);
      var inputs := RenderInputs(order[i], cands, slugify);
      if cands != [] {
        instructionBound := true;
      }
      if !instructionBound {
        return sections, false;
      }
      sections := sections + [Section(order[i].id, inputs)];
      SavePriority(store, order[i].id, num);
      num := num + 1;
      i := i + 1;
    }
    bound := true;
  }

  lemma BallotSpecUnbound(db: Db, e: Id, slugify: string -> string)
    requires var order := SortByPriority(PositionsOf(db.positions, e));
             |order| > 0 && CandidatesOf(db.candidates, order[0].id) == []
    ensures GenerateBallotSpec(db, e, slugify) == (db, Unbound)
  {
  }

  lemma BallotSpecRendered(db: Db, e: Id, slugify: string -> string, sections: seq<Section>)
    requires var order := SortByPriority(PositionsOf(db.positions, e));
             && (|order| > 0 ==> CandidatesOf(db.candidates, order[0].id) != [])
             && |sections| == |order|
             && forall t :: 0 <= t < |order| ==> sections[t] == SectionOf(order[t], db.candidates, slugify)
    ensures var order := SortByPriority(PositionsOf(db.positions, e));
            GenerateBallotSpec(db, e, slugify) == (db.(positions := Renumbered(db.positions, order, |order|)), Rendered(sections))
  {
    var order := SortByPriority(PositionsOf(db.positions, e));
    assert sections == seq(|order|, t requires 0 <= t < |order| => SectionOf(order[t], db.candidates, slugify));
  }

  /** The inner loop over the candidates of one position. */
  method RenderInputs(p: Position, cands: seq<Candidate>, slugify: string -> string) returns (inputs: seq<Input>)
    ensures inputs == seq(|cands|, t requires 0 <= t < |cands| => InputOf(p, cands[t], slugify))
  {
    inputs := [];
    var k := 0;
    while k < |cands|
      invariant 0 <= k <= |cands| && |inputs| == k
      invariant forall t :: 0 <= t < k ==> inputs[t] == InputOf(p, cands[t], slugify)
    {
      var widget := if p.maxVote > 1 then Checkbox else Radio;
      var key := if p.maxVote > 1 then slugify(p.name) + "[]" else slugify(p.name);
      inputs := inputs + [Input(cands[k].id, widget, key)];
      k := k + 1;
    }
  }

  method SavePriority(store: Store, id: Id, n: int)
    modifies store
    ensures store.Tables() == old(store.Tables()).(positions := SetPriority(old(store.positions), id, n))
  {
    store.positions := SetPriority(store.positions, id, n);
  }

  // ---------------------------------------------------------------------------------------------
  // What a rendered ballot leaves behind

  /** The election's positions in rendering order: sorted, with unique keys, and exactly the
      positions of the election. */
  lemma OrderFacts(db: Db, e: Id)
    requires Valid(db)
    ensures var order := SortByPriority(PositionsOf(db.positions, e));
            && InPriorityOrder(order)
            && Distinct(order, PositionId)
            && |order| == |PositionsOf(db.positions, e)|
            && forall p :: p in order <==> p in db.positions && p.election == e
  {
    var ps := PositionsOf(db.positions, e);
    SortOrdered(ps);
    FilterDistinct(db.positions, (p: Position) => p.election == e, PositionId);
    SortDistinct(ps);
  }

  /** `order` lists, each once, exactly the positions of election `e` in `ps`. */
  ghost predicate OrderOf(ps: seq<Position>, order: seq<Position>, e: Id) {
    && Distinct(ps, PositionId)
    && Distinct(order, PositionId)
    && forall p :: p in order <==> p in ps && p.election == e
  }

  /** Renumbering by such an order gives each position of `e` its rank and leaves the others. */
  lemma RenumberedRanks(ps: seq<Position>, order: seq<Position>, e: Id, j: nat)
    requires OrderOf(ps, order, e) && j < |ps|
    ensures var r := Renumbered(ps, order, |order|);
            && (ps[j].election != e ==> r[j] == ps[j])
            && (ps[j].election == e ==>
                  exists t :: 0 <= t < |order| && order[t] == ps[j] && r[j] == ps[j].(priority := t + 1))
  {
    if ps[j].election == e {
      var t :| 0 <= t < |order| && order[t] == ps[j];
      RenumberedRank(ps, order, |order|, t, j);
    } else {
      OutsideOrder(ps, order, e, j);
      RenumberedUntouched(ps, order, |order|, j);
    }
  }

  lemma OutsideOrder(ps: seq<Position>, order: seq<Position>, e: Id, j: nat)
    requires OrderOf(ps, order, e) && j < |ps| && ps[j].election != e
    ensures forall t :: 0 <= t < |order| ==> order[t].id != ps[j].id
  {
    forall t | 0 <= t < |order| ensures order[t].id != ps[j].id {
      var a :| 0 <= a < |ps| && ps[a] == order[t];
      assert a != j;
    }
  }

  /** Renumbering by such an order numbers the positions of `e` exactly 1..N. */
  lemma RenumberedDense(ps: seq<Position>, order: seq<Position>, e: Id)
    requires OrderOf(ps, order, e) && |order| == |PositionsOf(ps, e)|
    ensures Dense(Renumbered(ps, order, |order|), e)
  {
    var r := Renumbered(ps, order, |order|);
    forall j | 0 <= j < |r| ensures r[j].election == ps[j].election {
      RenumberedShape(ps, order, |order|, j);
    }
    SameElectionsCount(ps, r, e);
    RenumberedInRange(ps, order, e);
    RenumberedApart(ps, order, e);
  }

  lemma RenumberedInRange(ps: seq<Position>, order: seq<Position>, e: Id)
    requires OrderOf(ps, order, e)
    ensures var r := Renumbered(ps, order, |order|);
            forall j :: 0 <= j < |r| && r[j].election == e ==> 1 <= r[j].priority <= |order|
  {
    var r := Renumbered(ps, order, |order|);
    forall j | 0 <= j < |r| && r[j].election == e ensures 1 <= r[j].priority <= |order| {
      RenumberedShape(ps, order, |order|, j);
      RenumberedRanks(ps, order, e, j);
    }
  }

  lemma RenumberedApart(ps: seq<Position>, order: seq<Position>, e: Id)
    requires OrderOf(ps, order, e)
    ensures var r := Renumbered(ps, order, |order|);
            forall a, b :: 0 <= a < b < |r| && r[a].election == e && r[b].election == e ==> r[a].priority != r[b].priority
  {
    var r := Renumbered(ps, order, |order|);
    forall a, b | 0 <= a < b < |r| && r[a].election == e && r[b].election == e
      ensures r[a].priority != r[b].priority
    {
      RenumberedShape(ps, order, |order|, a);
      RenumberedShape(ps, order, |order|, b);
      RanksApart(ps, order, e, a, b);
    }
  }

  lemma RanksApart(ps: seq<Position>, order: seq<Position>, e: Id, a: nat, b: nat)
    requires OrderOf(ps, order, e) && a < b < |ps| && ps[a].election == e && ps[b].election == e
    ensures Renumbered(ps, order, |order|)[a].priority != Renumbered(ps, order, |order|)[b].priority
  {
    var ta := RankOf(ps, order, e, a);
    var tb := RankOf(ps, order, e, b);
    assert PositionId(ps[a]) != PositionId(ps[b]);
  }

  /** The rank a position of `e` has in `order`, which renumbering makes its priority. */
  lemma RankOf(ps: seq<Position>, order: seq<Position>, e: Id, j: nat) returns (t: nat)
    requires OrderOf(ps, order, e) && j < |ps| && ps[j].election == e
    ensures t < |order| && order[t] == ps[j] && Renumbered(ps, order, |order|)[j] == ps[j].(priority := t + 1)
  {
    t :| 0 <= t < |order| && order[t] == ps[j];
    RenumberedRank(ps, order, |order|, t, j);
  }

  /** A rendered ballot leaves the tables with the election's positions renumbered and nothing else changed. */
  lemma RenderedTables(db: Db, e: Id, slugify: string -> string)
    requires GenerateBallotSpec(db, e, slugify).1.Rendered?
    ensures var order := SortByPriority(PositionsOf(db.positions, e));
            GenerateBallotSpec(db, e, slugify).0 == db.(positions := Renumbered(db.positions, order, |order|))
  {
  }

  /** Every row of election `e` is now numbered by its rank in the rendering order; the rows of
      other elections are as they were, and only priorities change. */
  lemma BallotRanks(db: Db, e: Id, slugify: string -> string, j: nat)
    requires Valid(db) && j < |db.positions|
    requires GenerateBallotSpec(db, e, slugify).1.Rendered?
    ensures var order := SortByPriority(PositionsOf(db.positions, e));
            var r := GenerateBallotSpec(db, e, slugify).0;
            && |r.positions| == |db.positions|
            && r == db.(positions := r.positions)
            && (db.positions[j].election != e ==> r.positions[j] == db.positions[j])
            && (db.positions[j].election == e ==>
                  exists t :: 0 <= t < |order| && order[t] == db.positions[j] &&
                              r.positions[j] == db.positions[j].(priority := t + 1))
  {
    OrderFacts(db, e);
    RenderedTables(db, e, slugify);
    RenumberedRanks(db.positions, SortByPriority(PositionsOf(db.positions, e)), e, j);
  }

  /** After a ballot is rendered, the priorities of the election's positions are exactly 1..N. */
  lemma BallotDense(db: Db, e: Id, slugify: string -> string)
    requires Valid(db)
    requires GenerateBallotSpec(db, e, slugify).1.Rendered?
    ensures Dense(GenerateBallotSpec(db, e, slugify).0.positions, e)
  {
    OrderFacts(db, e);
    RenderedTables(db, e, slugify);
    RenumberedDense(db.positions, SortByPriority(PositionsOf(db.positions, e)), e);
  }

  /** Renumbering keeps the previous order: a position of the election that had a smaller
      priority than another still has. */
  lemma BallotKeepsOrder(db: Db, e: Id, slugify: string -> string, a: nat, b: nat)
    requires Valid(db) && a < |db.positions| && b < |db.positions|
    requires GenerateBallotSpec(db, e, slugify).1.Rendered?
    requires db.positions[a].election == e && db.positions[b].election == e
    requires db.positions[a].priority < db.positions[b].priority
    ensures GenerateBallotSpec(db, e, slugify).0.positions[a].priority <
            GenerateBallotSpec(db, e, slugify).0.positions[b].priority
  {
    OrderFacts(db, e);
    var ps := db.positions;
    var order := SortByPriority(PositionsOf(ps, e));
    var r := GenerateBallotSpec(db, e, slugify).0.positions;
    BallotRanks(db, e, slugify, a);
    BallotRanks(db, e, slugify, b);
    var ta :| 0 <= ta < |order| && order[ta] == ps[a] && r[a] == ps[a].(priority := ta + 1);
    var tb :| 0 <= tb < |order| && order[tb] == ps[b] && r[b] == ps[b].(priority := tb + 1);
    assert order[ta].priority < order[tb].priority;
    assert ta < tb;
  }

  /** The ballot fails exactly when the first position in priority order has no candidates, and
      then no priority has been saved. */
  lemma BallotFailsEarly(db: Db, e: Id, slugify: string -> string)
    ensures var (r, res) := GenerateBallotSpec(db, e, slugify);
            var order := SortByPriority(PositionsOf(db.positions, e));
            && (res.Unbound? <==> |order| > 0 && CandidatesOf(db.candidates, order[0].id) == [])
            && (res.Unbound? ==> r == db)
            && (res.Rendered? ==> |res.sections| == |order|)
            && (res.Rendered? ==> forall t :: 0 <= t < |order| ==> res.sections[t].position == order[t].id)
  {
  }
}
