/** Estimation rounds (internal/models/round.go): a round belongs to a room,
    carries its number, and moves from voting to revealed to completed. */
module Rounds {

  /** The three states of the round record's `state` field. */
  const StateVoting: string := "voting"
  const StateRevealed: string := "revealed"
  const StateCompleted: string := "completed"

  predicate DefinedState(state: string) {
    state == StateVoting || state == StateRevealed || state == StateCompleted
  }

  /** A round; the average score and timestamps are not modelled. */
  datatype Round = Round(id: string, roomId: string, roundNumber: int, state: string, totalVotes: int)

  /** `NewRound`: the given room and number, voting, no votes counted. The
      record id is assigned by the store when the round is saved. */
  function NewRound(roomId: string, roundNumber: int): (r: Round)
    ensures r.roomId == roomId && r.roundNumber == roundNumber
    ensures IsVoting(r) && r.totalVotes == 0
  {
    Round("", roomId, roundNumber, StateVoting, 0)
  }

  predicate IsVoting(r: Round) {
    r.state == StateVoting
  }

  predicate IsRevealed(r: Round) {
    r.state == StateRevealed
  }

  predicate IsCompleted(r: Round) {
    r.state == StateCompleted
  }

  predicate CanAcceptVotes(r: Round) {
    r.state == StateVoting
  }

  predicate CanReveal(r: Round) {
    r.state == StateVoting
  }

  predicate CanComplete(r: Round) {
    r.state == StateRevealed
  }

  /** At most one state predicate holds, and exactly one holds exactly for
      the three defined states; votes and reveal are allowed only while
      voting, completion only once revealed. */
  lemma StatePredicates(r: Round)
    ensures !(IsVoting(r) && IsRevealed(r)) && !(IsVoting(r) && IsCompleted(r)) && !(IsRevealed(r) && IsCompleted(r))
    ensures (IsVoting(r) || IsRevealed(r) || IsCompleted(r)) <==> DefinedState(r.state)
    ensures CanAcceptVotes(r) <==> IsVoting(r)
    ensures CanReveal(r) <==> IsVoting(r)
    ensures CanComplete(r) <==> IsRevealed(r)
  {
  }
}
