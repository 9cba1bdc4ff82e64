/** The reputation vote ledger: one row per (voter, target) pair holding a
    direction, and the transition a vote makes on that row together with the
    change it applies to the target's reputation. */
module Votes {
  import opened Common

  datatype Dir = Up | Down

  /** `['up', 'down'].includes(voteType)`, with the parsed direction. */
  function ParseDir(voteType: Val): (r: Option<Dir>)
    ensures r.Some? <==> voteType == Str("up") || voteType == Str("down")
    ensures r == Some(Up) <==> voteType == Str("up")
  {
    if voteType == Str("up") then Some(Up)
    else if voteType == Str("down") then Some(Down)
    else None
  }

  /** What a row contributes to its target's vote sum: +1 up, -1 down, 0 none. */
  function Weight(row: Option<Dir>): int {
    match row
    case None => 0
    case Some(Up) => 1
    case Some(Down) => -1
  }

  /** The row after a vote and the reputation change the handler applies. */
  datatype Step = Step(row: Option<Dir>, delta: int)

  /** One vote `dir` on a pair whose row is `prior`: no row inserts (+1/-1),
      the same direction deletes (-1/+1), the opposite direction flips (+2/-2).
      Every transition changes the reputation by exactly the change in the
      row's weight. */
  function Transition(prior: Option<Dir>, dir: Dir): (s: Step)
    ensures s.delta == Weight(s.row) - Weight(prior)
    ensures prior == Some(dir) ==> s.row == None
    ensures prior != Some(dir) ==> s.row == Some(dir)
  {
    match prior
    case None => Step(Some(dir), if dir == Up then 1 else -1)
    case Some(was) =>
      if was == dir then Step(None, if dir == Up then -1 else 1)
      else Step(Some(dir), if dir == Up then 2 else -2)
  }

  /** Flipping a vote moves the reputation by two, never by one. */
  lemma FlipMovesByTwo(prior: Dir, dir: Dir)
    requires prior != dir
    ensures Transition(Some(prior), dir).delta == (if dir == Up then 2 else -2)
  {
  }

  /** Two identical votes in a row: their changes add up to the change of the
      row's weight; from no vote, or from a vote in the same direction, the
      row and the reputation end as they started. */
  lemma RepeatedVote(prior: Option<Dir>, dir: Dir)
    ensures var first := Transition(prior, dir);
            var second := Transition(first.row, dir);
            first.delta + second.delta == Weight(second.row) - Weight(prior) &&
            (prior == None || prior == Some(dir) ==> second.row == prior && first.delta + second.delta == 0)
  {
  }

  /** The vote table: (voter, target) to direction. */
  type Ballots = map<(Id, Id), Dir>

  function RowOf(votes: Ballots, key: (Id, Id)): (r: Option<Dir>)
    ensures r.Some? <==> key in votes
    ensures key in votes ==> r == Some(votes[key])
  {
    if key in votes then Some(votes[key]) else None
  }

  /** The table with the row of `key` set to `row` (inserted, updated or deleted). */
  function Put(votes: Ballots, key: (Id, Id), row: Option<Dir>): (r: Ballots)
    ensures RowOf(r, key) == row
    ensures forall k :: k != key ==> RowOf(r, k) == RowOf(votes, k)
  {
    if row.Some? then votes[key := row.value] else votes - {key}
  }

  /** What the row under `key` contributes to `target`'s sum. */
  function Contribution(votes: Ballots, key: (Id, Id), target: Id): int
    requires key in votes
  {
    if key.1 == target then Weight(Some(votes[key])) else 0
  }

  /** Sum of the contributions of `keys` to `target`. */
  ghost function SumOver(votes: Ballots, keys: set<(Id, Id)>, target: Id): int
    requires keys <= votes.Keys
    decreases keys
  {
    if keys == {} then 0
    else
      var k :| k in keys;
      Contribution(votes, k, target) + SumOver(votes, keys - {k}, target)
  }

  /** The vote sum of `target`: Σ over its voters of +1 (up) / -1 (down). */
  ghost function Tally(votes: Ballots, target: Id): int {
    SumOver(votes, votes.Keys, target)
  }

  /** Any key can be taken out of the sum first. */
  lemma {:induction false} SumOverRemove(votes: Ballots, keys: set<(Id, Id)>, key: (Id, Id), target: Id)
    requires keys <= votes.Keys && key in keys
    ensures SumOver(votes, keys, target) == Contribution(votes, key, target) + SumOver(votes, keys - {key}, target)
    decreases keys
  {
    var k :| k in keys && SumOver(votes, keys, target) == Contribution(votes, k, target) + SumOver(votes, keys - {k}, target);
    if k != key {
      SumOverRemove(votes, keys - {k}, key, target);
      SumOverRemove(votes, keys - {key}, k, target);
      assert keys - {k} - {key} == keys - {key} - {k};
    }
  }

  /** Two tables that agree on `keys` have the same sum over them. */
  lemma {:induction false} SumOverFrame(a: Ballots, b: Ballots, keys: set<(Id, Id)>, target: Id)
    requires keys <= a.Keys && keys <= b.Keys
    requires forall k :: k in keys ==> a[k] == b[k]
    ensures SumOver(a, keys, target) == SumOver(b, keys, target)
    decreases keys
  {
    if keys != {} {
      var k :| k in keys;
      SumOverRemove(a, keys, k, target);
      SumOverRemove(b, keys, k, target);
      SumOverFrame(a, b, keys - {k}, target);
    }
  }

  /** The sum split into the row of `key` and everything else. */
  lemma SplitTally(votes: Ballots, key: (Id, Id), target: Id)
    ensures Tally(votes, target) ==
              (if key.1 == target then Weight(RowOf(votes, key)) else 0) + SumOver(votes, votes.Keys - {key}, target)
  {
    if key in votes {
      SumOverRemove(votes, votes.Keys, key, target);
    } else {
      assert votes.Keys - {key} == votes.Keys;
    }
  }

  /** Setting one row changes its target's sum by the change in that row's
      weight and leaves every other target's sum alone. */
  lemma TallyAfterPut(votes: Ballots, key: (Id, Id), row: Option<Dir>, target: Id)
    ensures Tally(Put(votes, key, row), target) ==
              Tally(votes, target) + (if key.1 == target then Weight(row) - Weight(RowOf(votes, key)) else 0)
  {
    var after := Put(votes, key, row);
    var rest := votes.Keys - {key};
    assert rest == after.Keys - {key};
    SplitTally(votes, key, target);
    SplitTally(after, key, target);
    SumOverFrame(votes, after, rest, target);
  }

  /** A vote keeps, for every user, reputation minus vote sum unchanged: the
      target's reputation moves by the transition's change, which is exactly
      the change of its vote sum. */
  lemma VoteKeepsBalance(votes: Ballots, voter: Id, target: Id, dir: Dir, user: Id)
    ensures var step := Transition(RowOf(votes, (voter, target)), dir);
            Tally(Put(votes, (voter, target), step.row), user) ==
              Tally(votes, user) + (if user == target then step.delta else 0)
  {
    var step := Transition(RowOf(votes, (voter, target)), dir);
    TallyAfterPut(votes, (voter, target), step.row, user);
  }
}
