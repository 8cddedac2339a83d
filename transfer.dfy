/**
 * The transfer loop of `main`: after the quota gate, every Spotify playlist
 * gets a newly created YouTube playlist, whose contents are listed once; then
 * every track is searched by "<name> <artist>" and its first hit is inserted
 * unless the hit was in that listing.
 *
 * The spec functions below give the destination state (`World`) after each
 * stage; the methods run the same loops against a `Destination` object and
 * are proved to end in the state the spec functions give.
 */
module Transfer {
  import opened Wrappers
  import opened Quota
  import opened YouTube

  /** A Spotify track: its name and the name of the first of its artists (the only one `main` reads). */
  datatype Track = Track(name: string, firstArtist: string)

  /** A Spotify playlist with the items of its (single) track page. */
  datatype SourcePlaylist = SourcePlaylist(name: string, tracks: seq<Track>)

  /** The search index: the first hit for a query, if there is one. */
  type SearchIndex = string -> Option<VideoId>

  /**
   * The inputs of a run fit together: one creation outcome per playlist, and
   * per playlist one insertion outcome per track (used only by tracks that
   * issue an insertion).
   */
  predicate Shaped(source: seq<SourcePlaylist>, created: seq<bool>, accepted: seq<seq<bool>>)
  {
    && |created| == |source|
    && |accepted| == |source|
    && forall i :: 0 <= i < |source| ==> |accepted[i]| == |source[i].tracks|
  }

  /** The search query for a track: `f"{track_name} {track_artist}"`. */
  function Query(t: Track): string
  {
    t.name + " " + t.firstArtist
  }

  /** The query is the track name, one space, then the first artist's name, and nothing else. */
  lemma QueryLayout(t: Track)
    ensures |Query(t)| == |t.name| + 1 + |t.firstArtist|
    ensures Query(t)[..|t.name|] == t.name && Query(t)[|t.name|] == ' ' && Query(t)[|t.name| + 1..] == t.firstArtist
  {
  }

  /** Track `i` exists and its query's first hit is `v`. */
  predicate Resolves(tracks: seq<Track>, index: SearchIndex, i: int, v: VideoId)
  {
    0 <= i < |tracks| && index(Query(tracks[i])) == Some(v)
  }

  /** The first hit for `t`, if there is one and it is not in `snapshot`. */
  function NewHit(snapshot: seq<VideoId>, t: Track, index: SearchIndex): Option<VideoId>
  {
    var hit := index(Query(t));
    if hit.Some? && hit.value !in snapshot then hit else None
  }

  /** `NewHit` as a sequence of at most one video. */
  function NewHits(snapshot: seq<VideoId>, t: Track, index: SearchIndex): seq<VideoId>
  {
    match NewHit(snapshot, t, index)
    case Some(v) => [v]
    case None => []
  }

  /** The requests one track causes in playlist `id`: a search, then possibly an insertion. */
  function TrackCalls(id: PlaylistId, snapshot: seq<VideoId>, t: Track, index: SearchIndex): seq<Call>
  {
    [SearchCall(Query(t))] + match NewHit(snapshot, t, index)
      case Some(v) => [InsertCall(id, v)]
      case None => []
  }

  /** The requests the track loop issues, track after track. */
  function TracksCalls(id: PlaylistId, snapshot: seq<VideoId>, tracks: seq<Track>, index: SearchIndex): seq<Call>
    decreases |tracks|
  {
    if tracks == [] then []
    else
      var n := |tracks| - 1;
      TracksCalls(id, snapshot, tracks[..n], index) + TrackCalls(id, snapshot, tracks[n], index)
  }

  /** Reference: the videos that get an insertion request, in track order. */
  function ToInsert(snapshot: seq<VideoId>, tracks: seq<Track>, index: SearchIndex): seq<VideoId>
    decreases |tracks|
  {
    if tracks == [] then []
    else
      var n := |tracks| - 1;
      ToInsert(snapshot, tracks[..n], index) + NewHits(snapshot, tracks[n], index)
  }

  /** What one track appends to the playlist: its new hit, when the service accepts the insertion. */
  function Appended(snapshot: seq<VideoId>, t: Track, index: SearchIndex, accepted: bool): seq<VideoId>
  {
    match NewHit(snapshot, t, index)
    case Some(v) => if accepted then [v] else []
    case None => []
  }

  /** The videos the service actually appends: those whose insertion request it accepts. */
  function Added(snapshot: seq<VideoId>, tracks: seq<Track>, index: SearchIndex, accepted: seq<bool>): seq<VideoId>
    requires |accepted| == |tracks|
    decreases |tracks|
  {
    if tracks == [] then []
    else
      var n := |tracks| - 1;
      Added(snapshot, tracks[..n], index, accepted[..n]) + Appended(snapshot, tracks[n], index, accepted[n])
  }

  /** The destination after one iteration of the playlist loop. */
  function PlaylistStep(w: World, p: SourcePlaylist, index: SearchIndex, created: bool, accepted: seq<bool>): World
    requires |accepted| == |p.tracks|
  {
    var logged := w.log + [CreateCall(p.name, TransferDescription, Private)];
    if !created then w.(log := logged)
    else
      var id := PlaylistId(w.nextSerial);
      var playlists := w.playlists[id := []];
      var snapshot := playlists[id];
      World(playlists[id := snapshot + Added(snapshot, p.tracks, index, accepted)],
            w.nextSerial + 1,
            logged + [ListCall(id)] + TracksCalls(id, snapshot, p.tracks, index))
  }

  /** The destination after the playlist loop over `source`. */
  function PlaylistsSpec(w: World, source: seq<SourcePlaylist>, index: SearchIndex,
                         created: seq<bool>, accepted: seq<seq<bool>>): World
    requires Shaped(source, created, accepted)
    decreases |source|
  {
    if source == [] then w
    else
      var n := |source| - 1;
      PlaylistStep(PlaylistsSpec(w, source[..n], index, created[..n], accepted[..n]),
                   source[n], index, created[n], accepted[n])
  }

  /** The destination after `main`: the quota probe, then the playlist loop if the gate is open. */
  function TransferSpec(w: World, probe: ProbeOutcome, source: seq<SourcePlaylist>, index: SearchIndex,
                        created: seq<bool>, accepted: seq<seq<bool>>): World
    requires Shaped(source, created, accepted)
  {
    var probed := w.(log := w.log + [ProbeCall]);
    if !QuotaAvailable(probe) then probed
    else PlaylistsSpec(probed, source, index, created, accepted)
  }

  /** Taking one more track extends the requests by that track's requests. */
  lemma TracksCallsSnoc(id: PlaylistId, snapshot: seq<VideoId>, tracks: seq<Track>, index: SearchIndex, k: nat)
    requires k < |tracks|
    ensures TracksCalls(id, snapshot, tracks[..k + 1], index)
         == TracksCalls(id, snapshot, tracks[..k], index) + TrackCalls(id, snapshot, tracks[k], index)
  {
    assert tracks[..k + 1][..k] == tracks[..k];
  }

  /** Taking one more track extends the requested videos by that track's new hit. */
  lemma ToInsertSnoc(snapshot: seq<VideoId>, tracks: seq<Track>, index: SearchIndex, k: nat)
    requires k < |tracks|
    ensures ToInsert(snapshot, tracks[..k + 1], index) == ToInsert(snapshot, tracks[..k], index) + NewHits(snapshot, tracks[k], index)
  {
    assert tracks[..k + 1][..k] == tracks[..k];
  }

  /** Taking one more track extends the appended videos by that track's accepted new hit. */
  lemma AddedSnoc(snapshot: seq<VideoId>, tracks: seq<Track>, index: SearchIndex, accepted: seq<bool>, k: nat)
    requires |accepted| == |tracks| && k < |tracks|
    ensures Added(snapshot, tracks[..k + 1], index, accepted[..k + 1])
         == Added(snapshot, tracks[..k], index, accepted[..k])
            + Appended(snapshot, tracks[k], index, accepted[k])
  {
    assert tracks[..k + 1][..k] == tracks[..k];
    assert accepted[..k + 1][..k] == accepted[..k];
  }

  /** The body of the inner loop of `main`, for one track. */
  method TransferTrack(dest: Destination, id: PlaylistId, snapshot: seq<VideoId>, t: Track,
                       index: SearchIndex, accepted: bool)
    requires id in dest.playlists
    modifies dest`log, dest`playlists
    ensures dest.log == old(dest.log) + TrackCalls(id, snapshot, t, index)
    ensures dest.playlists == old(dest.playlists)[id := old(dest.playlists)[id] + Appended(snapshot, t, index, accepted)]
  {
    ghost var before := dest.playlists;
    assert before[id] + [] == before[id];
    assert before[id := before[id]] == before;
    var hit := dest.Search(Query(t), index);
    if hit.Some? && hit.value !in snapshot {
      assert NewHit(snapshot, t, index) == hit;
      dest.AddTrack(id, hit.value, accepted);
    } else {
      assert NewHit(snapshot, t, index) == None;
    }
  }

  /** Appending to one entry twice is appending the concatenation once. */
  lemma ExtendEntry(m: map<PlaylistId, seq<VideoId>>, id: PlaylistId, a: seq<VideoId>, b: seq<VideoId>)
    requires id in m
    ensures m[id := m[id] + a][id := m[id] + a + b] == m[id := m[id] + (a + b)]
  {
    assert m[id] + a + b == m[id] + (a + b);
  }

  /** The inner loop of `main`: search every track and insert its hit unless the snapshot has it. */
  method TransferTracks(dest: Destination, id: PlaylistId, snapshot: seq<VideoId>, tracks: seq<Track>,
                        index: SearchIndex, accepted: seq<bool>)
    requires id in dest.playlists
    requires |accepted| == |tracks|
    modifies dest`log, dest`playlists
    ensures dest.log == old(dest.log) + TracksCalls(id, snapshot, tracks, index)
    ensures dest.playlists == old(dest.playlists)[id := old(dest.playlists)[id] + Added(snapshot, tracks, index, accepted)]
  {
    ghost var before := old(dest.playlists);
    ghost var calls: seq<Call> := [];
    ghost var added: seq<VideoId> := [];
    assert before[id] + added == before[id];
    assert before[id := before[id]] == before;
    for k := 0 to |tracks|
      invariant calls == TracksCalls(id, snapshot, tracks[..k], index)
      invariant added == Added(snapshot, tracks[..k], index, accepted[..k])
      invariant dest.log == old(dest.log) + calls
      invariant dest.playlists == before[id := before[id] + added]
    {
      TransferTrack(dest, id, snapshot, tracks[k], index, accepted[k]);
      TracksCallsSnoc(id, snapshot, tracks, index, k);
      AddedSnoc(snapshot, tracks, index, accepted, k);
      ghost var step := Appended(snapshot, tracks[k], index, accepted[k]);
      ExtendEntry(before, id, added, step);
      ghost var more := TrackCalls(id, snapshot, tracks[k], index);
      assert old(dest.log) + calls + more == old(dest.log) + (calls + more);
      calls := calls + more;
      added := added + step;
    }
    assert tracks[..|tracks|] == tracks;
    assert accepted[..|tracks|] == accepted;
  }

  /** One iteration of the playlist loop of `main`. */
  method TransferPlaylist(dest: Destination, p: SourcePlaylist, index: SearchIndex, created: bool, accepted: seq<bool>)
    requires dest.Valid()
    requires |accepted| == |p.tracks|
    modifies dest
    ensures dest.Valid()
    ensures dest.State() == PlaylistStep(old(dest.State()), p, index, created, accepted)
  {
    var id := dest.CreatePlaylistIfNotExist(p.name, created);
    if id.Some? {
      var snapshot := dest.GetVideoIds(id.value);
      TransferTracks(dest, id.value, snapshot, p.tracks, index, accepted);
    }
  }

  /** `main` after authentication: the quota gate, then every playlist in order. */
  method Run(dest: Destination, probe: ProbeOutcome, source: seq<SourcePlaylist>, index: SearchIndex,
             created: seq<bool>, accepted: seq<seq<bool>>)
    requires dest.Valid()
    requires Shaped(source, created, accepted)
    modifies dest
    ensures dest.Valid()
    ensures dest.State() == TransferSpec(old(dest.State()), probe, source, index, created, accepted)
  {
    var available := dest.CheckQuota(probe);
    if !available {
      return;
    }
    ghost var probed := dest.State();
    for i := 0 to |source|
      invariant dest.Valid()
      invariant dest.State() == PlaylistsSpec(probed, source[..i], index, created[..i], accepted[..i])
    {
      assert source[..i + 1][..i] == source[..i];
      assert created[..i + 1][..i] == created[..i];
      assert accepted[..i + 1][..i] == accepted[..i];
      TransferPlaylist(dest, source[i], index, created[i], accepted[i]);
    }
    assert source[..|source|] == source;
    assert created[..|source|] == created;
    assert accepted[..|source|] == accepted;
  }
}
