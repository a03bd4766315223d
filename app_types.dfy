/** The records the web client reads from the document store
    (src/lib/appwrite/types.ts), reduced to the fields the modelled rules use. */
module AppTypes {

  /** A match as the client sees it. `startMs` stands for
      `new Date(date).getTime()`, the start instant in milliseconds. */
  datatype Match = Match(
    id: string,
    externalId: string,
    date: string,
    startMs: int,
    homeTeam: string,
    awayTeam: string,
    status: string)

  /** One user's forecast for one match, keyed by the match's store id. The
      scores are the non-negative integers the score inputs parse to. */
  datatype Prediction = Prediction(
    id: string,
    matchId: string,
    userId: string,
    homeScore: nat,
    awayScore: nat)

  /** One user's standing in a room. */
  datatype Profile = Profile(
    id: string,
    userId: string,
    nickname: string,
    totalPoints: int)
}
