/**
 * The destination catalog (YouTube) as seen by the transfer: a map from
 * playlist id to the video ids it holds, and the log of every request the
 * transfer issues.  Which requests the remote service accepts is an input
 * to each operation.
 */
module YouTube {
  import opened Wrappers
  import opened Quota

  type VideoId = string

  /** A playlist id handed out by the service; the serial makes every new one distinct. */
  datatype PlaylistId = PlaylistId(serial: nat)

  datatype Privacy = Private

  /** The description every transferred playlist is created with. */
  const TransferDescription: string := "Created from Spotify"

  /** One request issued to the destination service. */
  datatype Call =
    | ProbeCall                                                    // videos.list quota probe
    | CreateCall(title: string, description: string, privacy: Privacy) // playlists.insert
    | ListCall(playlist: PlaylistId)                               // playlistItems.list
    | SearchCall(query: string)                                    // search.list
    | InsertCall(playlist: PlaylistId, video: VideoId)             // playlistItems.insert

  /** The abstract state of the destination: its playlists, the next serial, and the requests so far. */
  datatype World = World(playlists: map<PlaylistId, seq<VideoId>>, nextSerial: nat, log: seq<Call>)

  /** Every existing playlist id was handed out before `nextSerial`. */
  predicate Fresh(w: World)
  {
    forall id :: id in w.playlists ==> id.serial < w.nextSerial
  }

  class Destination {
    var playlists: map<PlaylistId, seq<VideoId>>
    var nextSerial: nat
    var log: seq<Call>

    predicate Valid()
      reads this
    {
      Fresh(State())
    }

    function State(): World
      reads this
    {
      World(playlists, nextSerial, log)
    }

    constructor (initial: map<PlaylistId, seq<VideoId>>, firstSerial: nat)
      requires forall id :: id in initial ==> id.serial < firstSerial
      ensures Valid()
      ensures State() == World(initial, firstSerial, [])
    {
      playlists := initial;
      nextSerial := firstSerial;
      log := [];
    }

    /** check_youtube_quota: issue the probe and classify its outcome. */
    method CheckQuota(probe: ProbeOutcome) returns (available: bool)
      modifies this`log
      ensures log == old(log) + [ProbeCall]
      ensures !available <==> probe.ProbeFailed? && exists i :: OccursAt(QuotaMarker, probe.message, i)
    {
      log := log + [ProbeCall];
      available := QuotaAvailable(probe);
    }

    /**
     * create_youtube_playlist_if_not_exist: always requests a new private
     * playlist named `name`, never looks one up; a rejected request yields None.
     */
    method CreatePlaylistIfNotExist(name: string, accepted: bool) returns (id: Option<PlaylistId>)
      requires Valid()
      modifies this
      ensures Valid()
      ensures log == old(log) + [CreateCall(name, TransferDescription, Private)]
      ensures accepted ==> id == Some(PlaylistId(old(nextSerial))) && id.value !in old(playlists)
                           && playlists == old(playlists)[id.value := []]
                           && nextSerial == old(nextSerial) + 1
      ensures !accepted ==> id == None && playlists == old(playlists) && nextSerial == old(nextSerial)
    {
      log := log + [CreateCall(name, TransferDescription, Private)];
      if accepted {
        var newId := PlaylistId(nextSerial);
        playlists := playlists[newId := []];
        nextSerial := nextSerial + 1;
        id := Some(newId);
      } else {
        id := None;
      }
    }

    /** get_youtube_video_ids: list the playlist and collect each item's video id, in listing order. */
    method GetVideoIds(id: PlaylistId) returns (ids: seq<VideoId>)
      requires id in playlists
      modifies this`log
      ensures log == old(log) + [ListCall(id)]
      ensures ids == playlists[id]
    {
      log := log + [ListCall(id)];
      var items := playlists[id];
      ids := [];
      for k := 0 to |items|
        invariant ids == items[..k]
      {
        ids := ids + [items[k]];
      }
    }

    /** search.list with maxResults=1: the first hit the search index gives for `query`, if any. */
    method Search(query: string, index: string -> Option<VideoId>) returns (hit: Option<VideoId>)
      modifies this`log
      ensures log == old(log) + [SearchCall(query)]
      ensures hit == index(query)
    {
      log := log + [SearchCall(query)];
      hit := index(query);
    }

    /**
     * add_track_to_youtube_playlist: request the insertion; a rejected
     * request changes nothing and is not reported to the caller.
     */
    method AddTrack(id: PlaylistId, video: VideoId, accepted: bool)
      modifies this`log, this`playlists
      ensures log == old(log) + [InsertCall(id, video)]
      ensures playlists == if accepted && id in old(playlists)
                           then old(playlists)[id := old(playlists)[id] + [video]]
                           else old(playlists)
    {
      log := log + [InsertCall(id, video)];
      if accepted && id in playlists {
        playlists := playlists[id := playlists[id] + [video]];
      }
    }
  }
}
