/** The records of the scorekeeping app: players, plays and the side they play for. */
module Types {

  datatype Option<+T> = None | Some(value: T)

  /** One of the two competing teams. */
  datatype Side = Home | Away

  /** A jersey label is either a number or a short free-form string. */
  datatype Jersey = Number(n: int) | Label(s: string)

  /** A roster entry. `position` is the display order: 0-4 are starters, 5+ the bench. */
  datatype Player = Player(id: string, name: string, team: Side, position: int, jersey: Option<Jersey>)

  /** The creation time of a play, already rendered by the locale formatter as a date and a time. */
  datatype Timestamp = Timestamp(date: string, time: string)

  /** One recorded event. The player's name and the action label are copies, not references. */
  datatype Play = Play(
    id: string,
    playerId: string,
    playerName: string,
    action: string,
    timestamp: Timestamp,
    team: Side,
    points: int)
}
