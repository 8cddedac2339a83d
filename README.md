# Spotify-to-YouTube playlist transfer — a verified model of the transfer loop

The script `spotify_playlist_transfer.py` copies a user's Spotify playlists to
YouTube. It first probes the YouTube API quota and stops if the quota is
exhausted. Then, for every Spotify playlist, it creates a new private YouTube
playlist with the same name and lists that playlist's videos once. For each
track it searches YouTube for `"<track name> <first artist>"`, takes the first
hit, and inserts it unless the hit was in that listing.

This project models that logic in Dafny:

- `quota.dfy` (module `Quota`): the quota gate `check_youtube_quota`. It
  classifies the probe's outcome with a substring scan, and that scan is proved
  equal to a reference definition of substring occurrence.
- `youtube.dfy` (module `YouTube`): the destination service as a class
  `Destination`. Its state is a map from playlist id to the video ids in that
  playlist, a serial counter that hands out new playlist ids, and the log of
  every request issued. Its methods are the five requests the script makes:
  probe, create, list, search and insert. Whether the service accepts a create
  or an insert is an input to the method. The search index is an oracle
  function from query to optional first hit.
- `transfer.dfy` (module `Transfer`): the loops of `main` as methods
  (`Run`, `TransferPlaylist`, `TransferTracks`, `TransferTrack`). Each is proved
  to leave the destination in the state given by a spec function on the
  abstract state `World` (`TransferSpec`, `PlaylistStep`, `TracksCalls`,
  `Added`).
- `transfer_properties.dfy` (module `TransferProperties`): what a run
  promises, proved about those spec functions. This covers the gate, one
  create per playlist, search and insert requests in track order, the
  insert-iff condition, the never-refreshed snapshot, and that insert failures
  change no request. It ends with concrete scenarios.
- `wrappers.dfy`: `Option`, standing for Python's `None`.

## Behaviour to note

- `create_youtube_playlist_if_not_exist` never looks up an existing
  playlist by name: it always creates a new one (lines 81-88).
- The list of existing video ids is built once per playlist (line 153) and
  never added to. Two tracks that resolve to the same video therefore both
  issue an insert (`RepeatedHitRequestedTwice`, `RepeatedTrackScenario`).
- The playlist has just been created, so that listing is empty and the
  membership test at line 171 never filters anything
  (`NewPlaylistRequestsEveryHit`).
- There is no per-track outcome record or report, only `print`s. The model
  records the requests issued instead.

## Model

| member | source | states |
|---|---|---|
| Quota.ContainsIff | spotify_playlist_transfer.py:120 | the left-to-right scan used for Python's `in` finds the marker exactly when it occurs at some index of the error text (both directions) |
| Quota.QuotaAvailable | spotify_playlist_transfer.py:110-127 | the gate is closed exactly when the probe failed with an error whose text contains "quotaExceeded"; success and every other error leave it open |
| Quota.QuotaErrorClosesGate | spotify_playlist_transfer.py:119-122 | example: the error text "403 quotaExceeded" closes the gate |
| Quota.OtherErrorKeepsGateOpen | spotify_playlist_transfer.py:123-125 | example: the error text "403 rateLimitExceeded", longer than the marker but without it, leaves the gate open |
| YouTube.Destination.CheckQuota | spotify_playlist_transfer.py:110-127 | issues exactly one probe request and returns false exactly on a quota-exceeded error |
| YouTube.Destination.CreatePlaylistIfNotExist | spotify_playlist_transfer.py:81-88 | issues one create request with the given title, description "Created from Spotify" and private status (via create_youtube_playlist, lines 54-69); on acceptance returns a new id not used before, mapped to an empty playlist; on rejection returns None and changes no playlist |
| YouTube.Destination.GetVideoIds | spotify_playlist_transfer.py:39-52 | issues one list request and returns the playlist's video ids, all of them, in listing order |
| YouTube.Destination.Search | spotify_playlist_transfer.py:161-165 | issues one search request for the query and returns the index's first hit, if any |
| YouTube.Destination.AddTrack | spotify_playlist_transfer.py:90-108 | issues one insert request; an accepted insert adds the video to that playlist; a rejected one changes nothing and is not reported |
| Transfer.QueryLayout | spotify_playlist_transfer.py:157-162 | the query is the track name, one space, then the first artist's name, and nothing else |
| Transfer.TransferTrack | spotify_playlist_transfer.py:157-174 | one track issues a search for its query, then an insert exactly when there is a hit absent from the snapshot |
| Transfer.TransferTracks | spotify_playlist_transfer.py:156-174 | the track loop issues the requests `TracksCalls` gives, in track order, against an unchanging snapshot; the playlist gains exactly the accepted new hits |
| Transfer.TransferPlaylist | spotify_playlist_transfer.py:145-174 | one playlist iteration: create; if created, list once and run the track loop; if not, nothing else |
| Transfer.Run | spotify_playlist_transfer.py:140-174 | `main` after authentication: the probe, then every playlist in order if the gate is open; the final state is `TransferSpec` of the initial one |
| TransferProperties.TrackCallsShape | spotify_playlist_transfer.py:160-174 | a track issues exactly one search, for its query, and an insert of v exactly when the first hit is v and v is not in the snapshot; no hit means no insert |
| TransferProperties.SearchesInTrackOrder | spotify_playlist_transfer.py:156-165 | the track loop issues one search per track, and the i-th search is for the i-th track's query |
| TransferProperties.InsertsFollowReference | spotify_playlist_transfer.py:156-172 | the insert requests of the track loop are exactly the reference list `ToInsert`, in track order, all into the current playlist |
| TransferProperties.ToInsertMembership | spotify_playlist_transfer.py:167-172 | a video is requested exactly when it is not in the snapshot and some track's query has it as first hit |
| TransferProperties.ToInsertPrefix | spotify_playlist_transfer.py:155-172 | tracks are handled in order: the videos requested for the first m tracks are a prefix of those requested for the first n, for m <= n |
| TransferProperties.HitRequestedAt | spotify_playlist_transfer.py:166-172 | a track whose first hit is absent from the snapshot requests it right after the requests of the tracks before it |
| TransferProperties.RepeatedHitRequestedTwice | spotify_playlist_transfer.py:153-172 | the snapshot is never updated: two tracks resolving to the same video absent from the snapshot request it at least twice |
| TransferProperties.AddedWithinRequested | spotify_playlist_transfer.py:90-108 | the videos added, counted with repetition, are drawn from the requested ones, and, when every insert is accepted, they are exactly the requested videos in request order (the model appends; see Left out) |
| TransferProperties.AddedIsRequestsOfAccepted | spotify_playlist_transfer.py:90-108 | a rejected insert drops exactly its own video: the videos added are the requests the track loop would make over only the tracks whose insert is accepted |
| TransferProperties.PlaylistStepCalls | spotify_playlist_transfer.py:145-153 | each playlist issues exactly one create request with its name, the fixed description and private status; a failed creation issues nothing more and changes no playlist; a successful one lists the new playlist once, before the track loop |
| TransferProperties.NoCreatesInTrackLoop | spotify_playlist_transfer.py:156-172 | the track loop issues no create request |
| TransferProperties.NoListsInTrackLoop | spotify_playlist_transfer.py:152-172 | the track loop issues no list request, so the snapshot taken before it is never refreshed |
| TransferProperties.PlaylistListedOnce | spotify_playlist_transfer.py:145-153 | one playlist issues exactly one list request, for the new playlist, when its creation succeeds, and none when it fails |
| TransferProperties.NewPlaylistRequestsEveryHit | spotify_playlist_transfer.py:149-172 | in a just-created playlist every track with a search hit requests the insert of that hit |
| TransferProperties.GateClosedStopsRun | spotify_playlist_transfer.py:140-141 | with a quota-exceeded probe, the probe is the only request and no playlist changes |
| TransferProperties.OneCreatePerPlaylist | spotify_playlist_transfer.py:144-151 | the playlist loop only extends the log, and its create requests are exactly one per source playlist, in source order, whatever the creation and insert outcomes |
| TransferProperties.GateOpenCreatesEveryPlaylist | spotify_playlist_transfer.py:140-149 | with the gate open the probe comes first, followed by one create request per source playlist |
| TransferProperties.InsertOutcomesDoNotChangeCalls | spotify_playlist_transfer.py:107-108 | insert outcomes never change which requests are issued: a failed insert stops no later track or playlist |
| TransferProperties.ExistingPlaylistsUntouched | spotify_playlist_transfer.py:81-85 | every playlist that existed before the run keeps its contents, and new playlist ids stay fresh |
| TransferProperties.RepeatedTrackLoopScenario | spotify_playlist_transfer.py:156-172 | two identical tracks resolving to "vid1" in a new playlist issue search, insert, search, insert, and the playlist gets "vid1" twice |
| TransferProperties.RepeatedTrackScenario | spotify_playlist_transfer.py:140-174 | a whole run over playlist "Road Trip" with two identical tracks issues probe, create, list and two inserts of "vid1"; the new playlist holds "vid1" twice |
| TransferProperties.SnapshotHitScenario | spotify_playlist_transfer.py:171-172 | example: track ("Sunrise", "A") with snapshot ["vid1"] and an index whose first hit is always "vid1" issues only the search for "Sunrise A" and no insert |

## Left out

- OAuth flows and building the service objects (lines 71-79, 131). These are calls into vendor libraries and a local web server.
- Loading `config.json` and the credential constants (lines 9-22). This is file I/O with no decision logic.
- `print_spotify_playlists` and every `print`. These are console output only.
- Spotify reads. `current_user_playlists` and `playlist_tracks` are inputs: a sequence of playlists, each with its track page, already fetched. Paging is not modelled.
- Uncaught errors. The script has three `try` blocks, in `create_youtube_playlist_if_not_exist` (lines 82-88), `add_track_to_youtube_playlist` (lines 91-108) and `check_youtube_quota` (lines 111-125), and each catches only `HttpError`. Any other error ends the run. That covers an error outside those blocks (a failed listing, a failed search, a Spotify error). It also covers a non-`HttpError` exception inside them, such as a `KeyError` on the create response's `id` (line 69) or a non-HTTP failure of the probe or the insert. The model assumes none of these happen.
- Tracks with missing data. A track whose `track` entry is null, or whose artist list is empty, raises and ends the run. The model's `Track` always carries a first artist.
- Search hits that are not videos. A hit with no `videoId` (a channel or playlist) raises `KeyError`. The model's search index returns video ids only.
- Playlist id truthiness. The test `if youtube_playlist_id:` (line 151) only checks whether creation succeeded. Ids handed out by the model are never empty.
- Quota cost. The quota cost of each request and the remote service's ranking are not modelled.
- YouTube.Destination.GetVideoIds: returns every video of the playlist; the `maxResults=50` page limit (line 46) is not modelled, because it only matters for playlists the script did not just create.
- YouTube.Destination.AddTrack: appends an accepted video to the end of the playlist, while the script asks for `'position': 0` (line 98), which places each accepted video first. The contracts of `AddTrack`, `Transfer.TransferTracks`, `Transfer.TransferPlaylist` and `Transfer.Run` therefore give a new playlist's contents in request order, where the service would hold them in reverse request order, ahead of any videos already there. The request log, and the multiset of each playlist's contents, do not depend on placement.
