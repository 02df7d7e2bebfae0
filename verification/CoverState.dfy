/** Cover state and position as published to MQTT (app/bridge/cover_state.go). The gateway counts 0%
    as fully open and 100% as fully closed. */
module CoverState {

  datatype State = Open | Closed | Opening | Closing

  function ValidatePosition(position: int): int {
    if position < 0 || position > 100 then 0 else position
  }

  function ValidateTarget(target: int, validPosition: int): (r: (int, bool)) {
    if target < 0 || target > 100 then (validPosition, true) else (target, false)
  }

  function DeriveStateNormal(position: int, target: int): State {
    if position == target then
      if position == 100 then Closed else Open
    else if target < position then Opening
    else Closing
  }

  function DeriveStateInverted(position: int, target: int): State {
    if position == target then
      if position == 0 then Closed else Open
    else if target < position then Closing
    else Opening
  }

  function DeriveState(position: int, target: int, inverted: bool): State {
    if inverted then DeriveStateInverted(position, target) else DeriveStateNormal(position, target)
  }

  function Publish(rawPosition: int, rawTarget: int, inverted: bool): (int, State) {
    var position := ValidatePosition(rawPosition);
    var target := ValidateTarget(rawTarget, position).0;
    (position, DeriveState(position, target, inverted))
  }

  predicate Moving(s: State) { s.Opening? || s.Closing? }

  /** Whatever the inputs, the published position is the raw one if that is a percentage and 0 otherwise;
      movement is reported exactly when the target is a percentage different from it, as opening exactly
      if the target lies on the open side of it; and at rest the cover is closed exactly at the closed
      end. */
  lemma PublishedState(rawPosition: int, rawTarget: int, inverted: bool)
    ensures var (position, state) := Publish(rawPosition, rawTarget, inverted);
            && position == (if 0 <= rawPosition <= 100 then rawPosition else 0)
            && (Moving(state) <==> 0 <= rawTarget <= 100 && rawTarget != position)
            && (state == Opening <==>
                0 <= rawTarget <= 100 && (if inverted then rawTarget > position else rawTarget < position))
            && (state == Closing <==>
                0 <= rawTarget <= 100 && (if inverted then rawTarget < position else rawTarget > position))
            && (state == Closed <==> !Moving(state) && position == (if inverted then 0 else 100))
  {
  }

  /** An inverted cover is the normal cover with percentages counted from the other end. */
  lemma InversionIsMirror(rawPosition: int, rawTarget: int)
    requires 0 <= rawPosition <= 100
    ensures Publish(rawPosition, rawTarget, true).1 == Publish(100 - rawPosition, 100 - rawTarget, false).1
  {
  }
}
