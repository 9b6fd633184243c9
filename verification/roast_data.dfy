/** The structured reply the language model is asked for: an overall score,
    a playlist-level roast and one roast per listed item. A JSON number may
    be fractional, so the score is a real. */
module RoastData {

  datatype RoastEntry = RoastEntry(name: string, roast: string)

  datatype RoastPayload = RoastPayload(score: real, playlistRoast: string, roasts: seq<RoastEntry>)
}
