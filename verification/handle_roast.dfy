/** The page's `handleRoast` (src/app/page.tsx, lines 253-356) as a pure
    function. Every network reply is an input: the two top-items replies
    are given values, and the playlist and roast endpoints are functions
    from what the page sends to what it receives. The result records the
    outcome the user sees and the requests that were issued, in order. */
module HandleRoast {
  import opened Wrappers
  import opened Items
  import opened PlaylistUrl
  import opened Merge
  import opened RoastData
  import opened Http

  /** The page's `mode` state: the user's own taste, or a pasted playlist. */
  datatype Mode = UserMode | PlaylistMode

  /** A request the page issues. */
  datatype Request =
    | TopArtists
    | TopTracks
    | PlaylistTracks(playlistId: string)
    | RoastApi(names: string)

  /** The two top-items replies: their statuses and, when read, their items. */
  datatype TopItemsReply = TopItemsReply(artistsStatus: int, tracksStatus: int,
                                         artists: seq<Artist>, tracks: seq<Track>)

  datatype PlaylistReply = PlaylistReply(status: int, entries: seq<PlaylistEntry>)

  /** The body of the roast endpoint's reply as the page reads it: not JSON,
      JSON `null`, or an object whose `roasts` may be missing or falsy. */
  datatype AiBody =
    | Unparseable
    | NullBody
    | RoastJson(score: real, roasts: Option<seq<RoastEntry>>)

  datatype AiReply = AiReply(status: int, body: AiBody)

  /** What the user ends up seeing: nothing (no session), the session-expired
      alert, the invalid-URL alert, the generic failure alert, or the cards. */
  datatype Verdict =
    | NotSignedIn
    | SessionExpired
    | InvalidUrl
    | Failure
    | Shown(score: real, cards: seq<Card>)

  datatype Run = Run(verdict: Verdict, requests: seq<Request>)

  /** The verdict on the two top-items replies. */
  datatype TopItemsStatus = BothOk | AuthExpired | FetchFailed

  /** Lines 271-278: proceed when both replies are ok; otherwise a 401 on
      either one means the session expired, and anything else is a failure. */
  function ClassifyTopItems(artistsStatus: int, tracksStatus: int): (c: TopItemsStatus)
    ensures c == BothOk <==> IsOk(artistsStatus) && IsOk(tracksStatus)
    ensures c == AuthExpired <==> artistsStatus == Unauthorized || tracksStatus == Unauthorized
    ensures c == FetchFailed <==> !(IsOk(artistsStatus) && IsOk(tracksStatus))
                                  && artistsStatus != Unauthorized && tracksStatus != Unauthorized
  {
    if !IsOk(artistsStatus) || !IsOk(tracksStatus) then
      if artistsStatus == Unauthorized || tracksStatus == Unauthorized then AuthExpired
      else FetchFailed
    else BothOk
  }

  /** The first half of `handleRoast`: gathering the items to roast. */
  datatype Collection =
    | Gathered(items: seq<Item>, requests: seq<Request>)
    | Halted(verdict: Verdict, requests: seq<Request>)

  /** Lines 263-316. In user mode both top-items requests are always issued;
      in playlist mode a URL without an id issues nothing. */
  function CollectItems(mode: Mode, playlistUrl: string, top: TopItemsReply,
                        playlist: string -> PlaylistReply): (c: Collection)
    ensures mode == UserMode ==> c.requests == [TopArtists, TopTracks]
    ensures mode == UserMode ==>
              (c.Gathered? <==> ClassifyTopItems(top.artistsStatus, top.tracksStatus) == BothOk)
    ensures mode == UserMode && c.Gathered? ==>
              |c.items| == |top.artists| + |top.tracks|
              && (forall i :: 0 <= i < |top.artists| ==> c.items[i] == ArtistItem(top.artists[i]))
              && (forall j :: 0 <= j < |top.tracks| ==> c.items[|top.artists| + j] == TrackItem(top.tracks[j]))
    ensures mode == PlaylistMode && ExtractPlaylistId(playlistUrl).None? ==> c == Halted(InvalidUrl, [])
    ensures mode == PlaylistMode && ExtractPlaylistId(playlistUrl).Some? ==>
              var id := ExtractPlaylistId(playlistUrl).value;
              && c.requests == [PlaylistTracks(id)]
              && (c.Gathered? <==> IsOk(playlist(id).status) && PlaylistItems(playlist(id).entries).Some?)
              && (c.Gathered? ==> c.items == PlaylistItems(playlist(id).entries).value)
    ensures c.Halted? ==> c.verdict in {SessionExpired, InvalidUrl, Failure}
  {
    match mode
    case UserMode =>
      var requests := [TopArtists, TopTracks];
      (match ClassifyTopItems(top.artistsStatus, top.tracksStatus)
       case AuthExpired => Halted(SessionExpired, requests)
       case FetchFailed => Halted(Failure, requests)
       case BothOk => Gathered(UserItems(top.artists, top.tracks), requests))
    case PlaylistMode =>
      match ExtractPlaylistId(playlistUrl)
      case None => Halted(InvalidUrl, [])
      case Some(id) =>
        var requests := [PlaylistTracks(id)];
        var reply := playlist(id);
        if !IsOk(reply.status) then Halted(Failure, requests)
        else
          match PlaylistItems(reply.entries)
          case None => Halted(Failure, requests)
          case Some(items) => Gathered(items, requests)
  }

  /** The whole of `handleRoast`. Without a session nothing happens. Once
      items are gathered, their names list is posted to the roast endpoint,
      and the cards are shown only for an ok reply whose body carries
      `roasts`; they are the reply's roasts reconciled with the items. */
  function HandleRoast(signedIn: bool, mode: Mode, playlistUrl: string, top: TopItemsReply,
                       playlist: string -> PlaylistReply, ai: string -> AiReply): (run: Run)
    ensures !signedIn ==> run == Run(NotSignedIn, [])
    ensures signedIn ==>
              var c := CollectItems(mode, playlistUrl, top, playlist);
              && (c.Halted? ==> run == Run(c.verdict, c.requests))
              && (c.Gathered? ==> run.requests == c.requests + [RoastApi(NamesList(c.items))])
    ensures signedIn && CollectItems(mode, playlistUrl, top, playlist).Gathered? ==>
              var c := CollectItems(mode, playlistUrl, top, playlist);
              var reply := ai(NamesList(c.items));
              && (run.verdict.Shown? <==> IsOk(reply.status) && reply.body.RoastJson? && reply.body.roasts.Some?)
              && (run.verdict.Shown? ==> run.verdict.score == reply.body.score
                                         && run.verdict.cards == Reconcile(c.items, reply.body.roasts.value))
              && (!run.verdict.Shown? ==> run.verdict == Failure)
  {
    if !signedIn then Run(NotSignedIn, [])
    else
      match CollectItems(mode, playlistUrl, top, playlist)
      case Halted(verdict, requests) => Run(verdict, requests)
      case Gathered(items, requests) =>
        var names := NamesList(items);
        var reply := ai(names);
        var sent := requests + [RoastApi(names)];
        if !IsOk(reply.status) then Run(Failure, sent)
        else
          match reply.body
          case RoastJson(score, Some(roasts)) => Run(Shown(score, Reconcile(items, roasts)), sent)
          case _ => Run(Failure, sent)
  }

  /** A URL without a playlist id stops the run before any request, and it
      is the only way to reach the invalid-URL alert. */
  lemma InvalidUrlIssuesNoRequest(signedIn: bool, mode: Mode, playlistUrl: string, top: TopItemsReply,
                                  playlist: string -> PlaylistReply, ai: string -> AiReply)
    ensures var run := HandleRoast(signedIn, mode, playlistUrl, top, playlist, ai);
            run.verdict == InvalidUrl <==> signedIn && mode == PlaylistMode
                                           && forall i :: !MatchesAt(playlistUrl, i)
    ensures var run := HandleRoast(signedIn, mode, playlistUrl, top, playlist, ai);
            run.verdict == InvalidUrl ==> run.requests == []
  {
  }

  /** The session-expired alert comes only from a 401 on a top-items reply;
      a 401 on the playlist reply is a generic failure. */
  lemma SessionExpiredOnlyFromTopItems(signedIn: bool, mode: Mode, playlistUrl: string, top: TopItemsReply,
                                       playlist: string -> PlaylistReply, ai: string -> AiReply)
    ensures HandleRoast(signedIn, mode, playlistUrl, top, playlist, ai).verdict == SessionExpired
            <==> signedIn && mode == UserMode
                 && (top.artistsStatus == Unauthorized || top.tracksStatus == Unauthorized)
  {
  }

  /** The roast endpoint is called at most once, last, and only with the
      names list of the gathered items. */
  lemma RoastRequestCarriesNames(signedIn: bool, mode: Mode, playlistUrl: string, top: TopItemsReply,
                                 playlist: string -> PlaylistReply, ai: string -> AiReply)
    ensures var c := CollectItems(mode, playlistUrl, top, playlist);
            var run := HandleRoast(signedIn, mode, playlistUrl, top, playlist, ai);
            forall k :: 0 <= k < |run.requests| && run.requests[k].RoastApi? ==>
              && signedIn && c.Gathered? && k == |run.requests| - 1
              && run.requests[k] == RoastApi(NamesList(c.items))
  {
    var c := CollectItems(mode, playlistUrl, top, playlist);
    var run := HandleRoast(signedIn, mode, playlistUrl, top, playlist, ai);
    var gathered := signedIn && c.Gathered?;
    var names := if c.Gathered? then NamesList(c.items) else "";
    GatheringSendsNoRoast(mode, playlistUrl, top, playlist);
    RunRequestsExtendGathering(signedIn, mode, playlistUrl, top, playlist, ai);
    forall k | 0 <= k < |run.requests| && run.requests[k].RoastApi?
      ensures gathered && k == |run.requests| - 1 && run.requests[k] == RoastApi(names)
    {
      OnlyLastRequestIsRoast(c.requests, run.requests, names, gathered, k);
    }
  }

  /** Gathering the items never calls the roast endpoint. */
  lemma GatheringSendsNoRoast(mode: Mode, playlistUrl: string, top: TopItemsReply,
                              playlist: string -> PlaylistReply)
    ensures var c := CollectItems(mode, playlistUrl, top, playlist);
            forall j :: 0 <= j < |c.requests| ==> !c.requests[j].RoastApi?
  {
  }

  /** The run's requests are the gathering requests, followed by the roast
      request exactly when a signed-in run gathered its items. */
  lemma RunRequestsExtendGathering(signedIn: bool, mode: Mode, playlistUrl: string, top: TopItemsReply,
                                   playlist: string -> PlaylistReply, ai: string -> AiReply)
    ensures var c := CollectItems(mode, playlistUrl, top, playlist);
            var run := HandleRoast(signedIn, mode, playlistUrl, top, playlist, ai);
            && (!(signedIn && c.Gathered?) ==> run.requests == [] || run.requests == c.requests)
            && (signedIn && c.Gathered? ==> run.requests == c.requests + [RoastApi(NamesList(c.items))])
  {
  }

  /** If the gathering requests hold no roast request, and the run appends
      one only after gathering, then a roast request is the appended one. */
  lemma OnlyLastRequestIsRoast(before: seq<Request>, all: seq<Request>, names: string,
                               gathered: bool, k: int)
    requires forall j :: 0 <= j < |before| ==> !before[j].RoastApi?
    requires !gathered ==> all == [] || all == before
    requires gathered ==> all == before + [RoastApi(names)]
    requires 0 <= k < |all| && all[k].RoastApi?
    ensures gathered && k == |all| - 1 && all[k] == RoastApi(names)
  {
  }
}
