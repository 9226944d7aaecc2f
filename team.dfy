/** The team record shared by the bracket, the auction and the views. */
module Teams {

  /** A tournament team: `TeamInfo` with its short name, logo slug, seed and region. */
  datatype Team = Team(shortName: string, urlName: string, seed: int, region: string)
}
