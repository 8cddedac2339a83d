/**
 * What a run of the transfer promises, stated over the requests it issues
 * and the destination state it leaves behind.
 */
module TransferProperties {
  import opened Wrappers
  import opened Quota
  import opened YouTube
  import opened Transfer

  predicate IsCreate(c: Call) { c.CreateCall? }
  predicate IsSearch(c: Call) { c.SearchCall? }
  predicate IsInsert(c: Call) { c.InsertCall? }
  predicate IsList(c: Call) { c.ListCall? }

  /** The requests of `log` that satisfy `keep`, in log order. */
  function Filter(log: seq<Call>, keep: Call -> bool): (r: seq<Call>)
    decreases |log|
  {
    if log == [] then []
    else
      var n := |log| - 1;
      Filter(log[..n], keep) + (if keep(log[n]) then [log[n]] else [])
  }

  /** Insertion requests for `videos` into playlist `id`, in order. */
  function InsertsInto(id: PlaylistId, videos: seq<VideoId>): seq<Call>
  {
    seq(|videos|, k requires 0 <= k < |videos| => InsertCall(id, videos[k]))
  }

  /** One creation request per source playlist, in source order, with the fixed description and privacy. */
  function CreatesFor(source: seq<SourcePlaylist>): seq<Call>
  {
    seq(|source|, i requires 0 <= i < |source| => CreateCall(source[i].name, TransferDescription, Private))
  }

  /** Everything the filter keeps comes from the log and satisfies `keep`. */
  lemma {:induction false} FilterKeeps(log: seq<Call>, keep: Call -> bool, c: Call)
    requires c in Filter(log, keep)
    ensures c in log && keep(c)
    decreases |log|
  {
    var n := |log| - 1;
    if c in Filter(log[..n], keep) {
      FilterKeeps(log[..n], keep, c);
    }
  }

  lemma {:induction false} FilterConcat(a: seq<Call>, b: seq<Call>, keep: Call -> bool)
    ensures Filter(a + b, keep) == Filter(a, keep) + Filter(b, keep)
    decreases |b|
  {
    if b == [] {
      assert a + b == a;
    } else {
      var n := |b| - 1;
      assert (a + b)[..|a| + n] == a + b[..n];
      assert (a + b)[|a| + n] == b[n];
      FilterConcat(a, b[..n], keep);
    }
  }

  // ---------------------------------------------------------------- one track

  lemma FilterSingleton(c: Call, keep: Call -> bool)
    ensures Filter([c], keep) == if keep(c) then [c] else []
  {
    assert [c][..0] == [];
  }

  /**
   * A track issues exactly one search, for its query, no creation, and an
   * insertion of `v` exactly when the search's first hit is `v` and `v` is
   * not in the snapshot; an empty result issues no insertion.
   */
  lemma TrackCallsShape(id: PlaylistId, snapshot: seq<VideoId>, t: Track, index: SearchIndex)
    ensures Filter(TrackCalls(id, snapshot, t, index), IsSearch) == [SearchCall(Query(t))]
    ensures Filter(TrackCalls(id, snapshot, t, index), IsCreate) == []
    ensures Filter(TrackCalls(id, snapshot, t, index), IsInsert)
         == InsertsInto(id, NewHits(snapshot, t, index))
    ensures forall v :: InsertCall(id, v) in TrackCalls(id, snapshot, t, index)
                        <==> index(Query(t)) == Some(v) && v !in snapshot
  {
    var search := SearchCall(Query(t));
    FilterSingleton(search, IsSearch);
    FilterSingleton(search, IsCreate);
    FilterSingleton(search, IsInsert);
    match NewHit(snapshot, t, index)
    case None =>
      assert TrackCalls(id, snapshot, t, index) == [search];
    case Some(v) =>
      var insert := InsertCall(id, v);
      assert TrackCalls(id, snapshot, t, index) == [search] + [insert];
      FilterSingleton(insert, IsSearch);
      FilterSingleton(insert, IsCreate);
      FilterSingleton(insert, IsInsert);
      FilterConcat([search], [insert], IsSearch);
      FilterConcat([search], [insert], IsCreate);
      FilterConcat([search], [insert], IsInsert);
  }

  // ---------------------------------------------------------------- the track loop

  /** The track loop issues one search per track, for that track's query, in track order. */
  lemma {:induction false} SearchesInTrackOrder(id: PlaylistId, snapshot: seq<VideoId>, tracks: seq<Track>, index: SearchIndex)
    ensures |Filter(TracksCalls(id, snapshot, tracks, index), IsSearch)| == |tracks|
    ensures forall i :: 0 <= i < |tracks| ==> Filter(TracksCalls(id, snapshot, tracks, index), IsSearch)[i] == SearchCall(Query(tracks[i]))
    decreases |tracks|
  {
    if tracks != [] {
      var n := |tracks| - 1;
      var prefix := tracks[..n];
      SearchesInTrackOrder(id, snapshot, prefix, index);
      var earlier := TracksCalls(id, snapshot, prefix, index);
      var latest := TrackCalls(id, snapshot, tracks[n], index);
      assert TracksCalls(id, snapshot, tracks, index) == earlier + latest;
      FilterConcat(earlier, latest, IsSearch);
      TrackCallsShape(id, snapshot, tracks[n], index);
      var searches := Filter(earlier + latest, IsSearch);
      assert searches == Filter(earlier, IsSearch) + [SearchCall(Query(tracks[n]))];
      forall i | 0 <= i < |tracks|
        ensures searches[i] == SearchCall(Query(tracks[i]))
      {
        if i < n {
          assert prefix[i] == tracks[i];
        }
      }
    }
  }

  /**
   * The insertion requests of the track loop are exactly those of the
   * reference `ToInsert`, in track order, all into playlist `id`.
   */
  lemma {:induction false} InsertsFollowReference(id: PlaylistId, snapshot: seq<VideoId>, tracks: seq<Track>, index: SearchIndex)
    ensures Filter(TracksCalls(id, snapshot, tracks, index), IsInsert) == InsertsInto(id, ToInsert(snapshot, tracks, index))
    decreases |tracks|
  {
    if tracks != [] {
      var n := |tracks| - 1;
      InsertsFollowReference(id, snapshot, tracks[..n], index);
      FilterConcat(TracksCalls(id, snapshot, tracks[..n], index), TrackCalls(id, snapshot, tracks[n], index), IsInsert);
      TrackCallsShape(id, snapshot, tracks[n], index);
      InsertsIntoConcat(id, ToInsert(snapshot, tracks[..n], index), NewHits(snapshot, tracks[n], index));
    }
  }

  lemma InsertsIntoConcat(id: PlaylistId, a: seq<VideoId>, b: seq<VideoId>)
    ensures InsertsInto(id, a + b) == InsertsInto(id, a) + InsertsInto(id, b)
  {
  }

  /**
   * A video gets an insertion request exactly when it is not in the
   * snapshot and some track's query has it as first hit.
   */
  lemma {:induction false} ToInsertMembership(snapshot: seq<VideoId>, tracks: seq<Track>, index: SearchIndex, v: VideoId)
    ensures v in ToInsert(snapshot, tracks, index) <==> v !in snapshot && exists i :: Resolves(tracks, index, i, v)
    decreases |tracks|
  {
    if tracks != [] {
      var n := |tracks| - 1;
      var prefix := tracks[..n];
      ToInsertMembership(snapshot, prefix, index, v);
      if v in ToInsert(snapshot, tracks, index) {
        if v in ToInsert(snapshot, prefix, index) {
          var i :| Resolves(prefix, index, i, v);
          assert Resolves(tracks, index, i, v);
        } else {
          assert Resolves(tracks, index, n, v);
        }
      }
      if v !in snapshot && exists i :: Resolves(tracks, index, i, v) {
        var i :| Resolves(tracks, index, i, v);
        if i < n {
          assert Resolves(prefix, index, i, v);
        } else {
          assert NewHit(snapshot, tracks[n], index) == Some(v);
        }
      }
    }
  }

  /** The videos requested for a prefix of the tracks are a prefix of those requested for the whole list. */
  lemma {:induction false} ToInsertPrefix(snapshot: seq<VideoId>, tracks: seq<Track>, index: SearchIndex, m: nat, n: nat)
    requires m <= n <= |tracks|
    ensures ToInsert(snapshot, tracks[..m], index) <= ToInsert(snapshot, tracks[..n], index)
  {
    var upto := tracks[..n];
    assert upto[..m] == tracks[..m];
    ToInsertOfPrefix(snapshot, upto, index, m);
  }

  /** The requests of a prefix of the tracks are a prefix of the requests of all of them. */
  lemma {:induction false} ToInsertOfPrefix(snapshot: seq<VideoId>, tracks: seq<Track>, index: SearchIndex, m: nat)
    requires m <= |tracks|
    ensures ToInsert(snapshot, tracks[..m], index) <= ToInsert(snapshot, tracks, index)
    decreases |tracks|
  {
    if m == |tracks| {
      assert tracks[..m] == tracks;
    } else {
      var init := tracks[..|tracks| - 1];
      assert init[..m] == tracks[..m];
      ToInsertOfPrefix(snapshot, init, index, m);
      PrefixOfExtension(ToInsert(snapshot, tracks[..m], index), ToInsert(snapshot, init, index),
                        NewHits(snapshot, tracks[|tracks| - 1], index));
    }
  }

  lemma PrefixOfExtension(a: seq<VideoId>, b: seq<VideoId>, extra: seq<VideoId>)
    requires a <= b
    ensures a <= b + extra
  {
    assert (b + extra)[..|b|] == b;
  }

  /**
   * A track whose hit is absent from the snapshot has that hit requested at
   * the position right after the requests of the tracks before it.
   */
  lemma HitRequestedAt(snapshot: seq<VideoId>, tracks: seq<Track>, index: SearchIndex, i: nat, v: VideoId)
    requires Resolves(tracks, index, i, v) && v !in snapshot
    ensures |ToInsert(snapshot, tracks[..i], index)| < |ToInsert(snapshot, tracks, index)|
    ensures ToInsert(snapshot, tracks, index)[|ToInsert(snapshot, tracks[..i], index)|] == v
    ensures |ToInsert(snapshot, tracks[..i + 1], index)| == |ToInsert(snapshot, tracks[..i], index)| + 1
  {
    var before := ToInsert(snapshot, tracks[..i], index);
    var through := ToInsert(snapshot, tracks[..i + 1], index);
    ToInsertSnoc(snapshot, tracks, index, i);
    assert NewHits(snapshot, tracks[i], index) == [v];
    assert through == before + [v];
    ToInsertPrefix(snapshot, tracks, index, i + 1, |tracks|);
    assert tracks[..|tracks|] == tracks;
    assert through[|before|] == v;
  }

  /**
   * The snapshot is never updated inside the loop: two tracks whose queries
   * both resolve to a video absent from the snapshot both request its
   * insertion, at two different positions of the request list.
   */
  lemma RepeatedHitRequestedTwice(snapshot: seq<VideoId>, tracks: seq<Track>, index: SearchIndex, i: nat, j: nat, v: VideoId)
    requires i < j
    requires Resolves(tracks, index, i, v) && Resolves(tracks, index, j, v) && v !in snapshot
    ensures exists k1, k2 :: 0 <= k1 < k2 < |ToInsert(snapshot, tracks, index)|
                             && ToInsert(snapshot, tracks, index)[k1] == v && ToInsert(snapshot, tracks, index)[k2] == v
  {
    HitRequestedAt(snapshot, tracks, index, i, v);
    HitRequestedAt(snapshot, tracks, index, j, v);
    ToInsertPrefix(snapshot, tracks, index, i + 1, j);
    var k1 := |ToInsert(snapshot, tracks[..i], index)|;
    var k2 := |ToInsert(snapshot, tracks[..j], index)|;
    assert k1 < k2;
  }

  /**
   * What is appended, counted with repetition, is drawn from the requested
   * videos, and is exactly the requested sequence when every request is
   * accepted.
   */
  lemma {:induction false} AddedWithinRequested(snapshot: seq<VideoId>, tracks: seq<Track>, index: SearchIndex, accepted: seq<bool>)
    requires |accepted| == |tracks|
    ensures multiset(Added(snapshot, tracks, index, accepted)) <= multiset(ToInsert(snapshot, tracks, index))
    ensures (forall k :: 0 <= k < |accepted| ==> accepted[k]) ==> Added(snapshot, tracks, index, accepted) == ToInsert(snapshot, tracks, index)
    decreases |tracks|
  {
    if tracks != [] {
      var n := |tracks| - 1;
      var prefix, decided := tracks[..n], accepted[..n];
      AddedWithinRequested(snapshot, prefix, index, decided);
      var added := Added(snapshot, prefix, index, decided);
      var requested := ToInsert(snapshot, prefix, index);
      var step := Appended(snapshot, tracks[n], index, accepted[n]);
      var hits := NewHits(snapshot, tracks[n], index);
      assert Added(snapshot, tracks, index, accepted) == added + step;
      assert ToInsert(snapshot, tracks, index) == requested + hits;
      assert multiset(step) <= multiset(hits);
      assert multiset(added + step) == multiset(added) + multiset(step);
      assert multiset(requested + hits) == multiset(requested) + multiset(hits);
      if forall k :: 0 <= k < |accepted| ==> accepted[k] {
        assert forall k :: 0 <= k < |decided| ==> decided[k];
        assert step == hits;
      }
    }
  }

  /** The tracks whose insertion outcome is an acceptance, in track order. */
  function KeepAccepted(tracks: seq<Track>, accepted: seq<bool>): seq<Track>
    requires |accepted| == |tracks|
    decreases |tracks|
  {
    if tracks == [] then []
    else
      var n := |tracks| - 1;
      KeepAccepted(tracks[..n], accepted[..n]) + (if accepted[n] then [tracks[n]] else [])
  }

  /** Requests for a list with one more track end with that track's new hit. */
  lemma ToInsertAppend(snapshot: seq<VideoId>, tracks: seq<Track>, t: Track, index: SearchIndex)
    ensures ToInsert(snapshot, tracks + [t], index) == ToInsert(snapshot, tracks, index) + NewHits(snapshot, t, index)
  {
    assert (tracks + [t])[..|tracks|] == tracks;
  }

  /**
   * A rejected insertion drops exactly its own video: what the service
   * appends is what the track loop would request if only the tracks whose
   * insertion is accepted were in the playlist.
   */
  lemma {:induction false} AddedIsRequestsOfAccepted(snapshot: seq<VideoId>, tracks: seq<Track>, index: SearchIndex, accepted: seq<bool>)
    requires |accepted| == |tracks|
    ensures Added(snapshot, tracks, index, accepted) == ToInsert(snapshot, KeepAccepted(tracks, accepted), index)
    decreases |tracks|
  {
    if tracks != [] {
      var n := |tracks| - 1;
      var prefix, decided := tracks[..n], accepted[..n];
      AddedIsRequestsOfAccepted(snapshot, prefix, index, decided);
      var kept := KeepAccepted(prefix, decided);
      if accepted[n] {
        ToInsertAppend(snapshot, kept, tracks[n], index);
      } else {
        assert kept + [] == kept;
        assert Appended(snapshot, tracks[n], index, accepted[n]) == [];
        assert Added(snapshot, prefix, index, decided) + [] == Added(snapshot, prefix, index, decided);
      }
    }
  }

  // ---------------------------------------------------------------- one playlist

  /**
   * One playlist issues exactly one creation request, with its name, the
   * fixed description and private status.  If the creation is rejected
   * nothing else is issued and no playlist changes; otherwise the new
   * playlist is listed once, before any search.
   */
  lemma PlaylistStepCalls(w: World, p: SourcePlaylist, index: SearchIndex, created: bool, accepted: seq<bool>)
    requires |accepted| == |p.tracks|
    ensures var r := PlaylistStep(w, p, index, created, accepted);
      && |w.log| < |r.log| && r.log[..|w.log|] == w.log
      && Filter(r.log[|w.log|..], IsCreate) == [CreateCall(p.name, TransferDescription, Private)]
      && r.log[|w.log|] == CreateCall(p.name, TransferDescription, Private)
      && (!created ==> r.log == w.log + [CreateCall(p.name, TransferDescription, Private)]
                       && r.playlists == w.playlists && r.nextSerial == w.nextSerial)
      && (created ==> r.log[|w.log| + 1] == ListCall(PlaylistId(w.nextSerial))
                      && r.log[|w.log| + 2..] == TracksCalls(PlaylistId(w.nextSerial), [], p.tracks, index))
  {
    var r := PlaylistStep(w, p, index, created, accepted);
    var create := CreateCall(p.name, TransferDescription, Private);
    var seg := r.log[|w.log|..];
    assert r.log == w.log + seg;
    FilterSingleton(create, IsCreate);
    if created {
      var id := PlaylistId(w.nextSerial);
      var tail := [ListCall(id)] + TracksCalls(id, [], p.tracks, index);
      assert seg == [create] + tail;
      FilterConcat([create], tail, IsCreate);
      FilterConcat([ListCall(id)], TracksCalls(id, [], p.tracks, index), IsCreate);
      FilterSingleton(ListCall(id), IsCreate);
      NoCreatesInTrackLoop(id, [], p.tracks, index);
    } else {
      assert seg == [create];
    }
  }

  /** One playlist issues one list request if its creation succeeds, for the new playlist, and none otherwise. */
  lemma PlaylistListedOnce(w: World, p: SourcePlaylist, index: SearchIndex, created: bool, accepted: seq<bool>)
    requires |accepted| == |p.tracks|
    ensures var r := PlaylistStep(w, p, index, created, accepted);
      |w.log| <= |r.log| &&
      Filter(r.log[|w.log|..], IsList) == (if created then [ListCall(PlaylistId(w.nextSerial))] else [])
  {
    var r := PlaylistStep(w, p, index, created, accepted);
    var create := CreateCall(p.name, TransferDescription, Private);
    var seg := r.log[|w.log|..];
    FilterSingleton(create, IsList);
    if created {
      var id := PlaylistId(w.nextSerial);
      var loop := TracksCalls(id, [], p.tracks, index);
      assert seg == [create] + ([ListCall(id)] + loop);
      FilterConcat([create], [ListCall(id)] + loop, IsList);
      FilterConcat([ListCall(id)], loop, IsList);
      FilterSingleton(ListCall(id), IsList);
      NoListsInTrackLoop(id, [], p.tracks, index);
    } else {
      assert seg == [create];
    }
  }

  /** The track loop issues no creation request. */
  lemma {:induction false} NoCreatesInTrackLoop(id: PlaylistId, snapshot: seq<VideoId>, tracks: seq<Track>, index: SearchIndex)
    ensures Filter(TracksCalls(id, snapshot, tracks, index), IsCreate) == []
    decreases |tracks|
  {
    if tracks != [] {
      var n := |tracks| - 1;
      NoCreatesInTrackLoop(id, snapshot, tracks[..n], index);
      FilterConcat(TracksCalls(id, snapshot, tracks[..n], index), TrackCalls(id, snapshot, tracks[n], index), IsCreate);
      TrackCallsShape(id, snapshot, tracks[n], index);
    }
  }

  /** A track issues no list request. */
  lemma TrackCallsNoList(id: PlaylistId, snapshot: seq<VideoId>, t: Track, index: SearchIndex)
    ensures Filter(TrackCalls(id, snapshot, t, index), IsList) == []
  {
    var search := SearchCall(Query(t));
    FilterSingleton(search, IsList);
    match NewHit(snapshot, t, index)
    case None =>
      assert TrackCalls(id, snapshot, t, index) == [search];
    case Some(v) =>
      var insert := InsertCall(id, v);
      assert TrackCalls(id, snapshot, t, index) == [search] + [insert];
      FilterSingleton(insert, IsList);
      FilterConcat([search], [insert], IsList);
  }

  /** The track loop issues no list request: the snapshot is taken once, before the loop. */
  lemma {:induction false} NoListsInTrackLoop(id: PlaylistId, snapshot: seq<VideoId>, tracks: seq<Track>, index: SearchIndex)
    ensures Filter(TracksCalls(id, snapshot, tracks, index), IsList) == []
    decreases |tracks|
  {
    if tracks != [] {
      var n := |tracks| - 1;
      NoListsInTrackLoop(id, snapshot, tracks[..n], index);
      FilterConcat(TracksCalls(id, snapshot, tracks[..n], index), TrackCalls(id, snapshot, tracks[n], index), IsList);
      TrackCallsNoList(id, snapshot, tracks[n], index);
    }
  }

  /**
   * The playlist is always newly created, so its listing is empty and the
   * snapshot filters nothing: every track with a search hit requests the
   * insertion of that hit into the new playlist.
   */
  lemma NewPlaylistRequestsEveryHit(w: World, p: SourcePlaylist, index: SearchIndex, accepted: seq<bool>, i: nat, v: VideoId)
    requires |accepted| == |p.tracks|
    requires Resolves(p.tracks, index, i, v)
    ensures InsertCall(PlaylistId(w.nextSerial), v) in PlaylistStep(w, p, index, true, accepted).log
  {
    var id := PlaylistId(w.nextSerial);
    var calls := TracksCalls(id, [], p.tracks, index);
    ToInsertMembership([], p.tracks, index, v);
    InsertsFollowReference(id, [], p.tracks, index);
    var k :| 0 <= k < |ToInsert([], p.tracks, index)| && ToInsert([], p.tracks, index)[k] == v;
    assert InsertsInto(id, ToInsert([], p.tracks, index))[k] == InsertCall(id, v);
    assert InsertCall(id, v) in Filter(calls, IsInsert);
    FilterKeeps(calls, IsInsert, InsertCall(id, v));
    var r := PlaylistStep(w, p, index, true, accepted);
    assert r.log == w.log + [CreateCall(p.name, TransferDescription, Private), ListCall(id)] + calls;
  }

  // ---------------------------------------------------------------- the whole run

  /** If the quota gate is closed, the probe is the only request and no playlist changes. */
  lemma GateClosedStopsRun(w: World, probe: ProbeOutcome, source: seq<SourcePlaylist>, index: SearchIndex,
                           created: seq<bool>, accepted: seq<seq<bool>>)
    requires Shaped(source, created, accepted)
    requires probe.ProbeFailed? && exists i :: OccursAt(QuotaMarker, probe.message, i)
    ensures var r := TransferSpec(w, probe, source, index, created, accepted);
      r.log == w.log + [ProbeCall] && r.playlists == w.playlists && r.nextSerial == w.nextSerial
  {
  }

  lemma ShapedPrefix(source: seq<SourcePlaylist>, created: seq<bool>, accepted: seq<seq<bool>>, k: nat)
    requires Shaped(source, created, accepted) && k <= |source|
    ensures Shaped(source[..k], created[..k], accepted[..k])
  {
  }

  /**
   * The playlist loop issues one creation request per source playlist, in
   * source order, whatever the outcomes of the creations and insertions.
   */
  lemma {:induction false} OneCreatePerPlaylist(w: World, source: seq<SourcePlaylist>, index: SearchIndex,
                                               created: seq<bool>, accepted: seq<seq<bool>>)
    requires Shaped(source, created, accepted)
    ensures var r := PlaylistsSpec(w, source, index, created, accepted);
      |w.log| <= |r.log| && r.log[..|w.log|] == w.log && Filter(r.log[|w.log|..], IsCreate) == CreatesFor(source)
    decreases |source|
  {
    var r := PlaylistsSpec(w, source, index, created, accepted);
    if source == [] {
      assert r.log[|w.log|..] == [];
    } else {
      var n := |source| - 1;
      ShapedPrefix(source, created, accepted, n);
      var mid := PlaylistsSpec(w, source[..n], index, created[..n], accepted[..n]);
      assert r == PlaylistStep(mid, source[n], index, created[n], accepted[n]);
      OneCreatePerPlaylist(w, source[..n], index, created[..n], accepted[..n]);
      PlaylistStepCalls(mid, source[n], index, created[n], accepted[n]);
      LogExtends(w.log, mid.log, r.log);
      FilterConcat(mid.log[|w.log|..], r.log[|mid.log|..], IsCreate);
      CreatesForSnoc(source, n);
    }
  }

  lemma CreatesForSnoc(source: seq<SourcePlaylist>, n: nat)
    requires n + 1 == |source|
    ensures CreatesFor(source) == CreatesFor(source[..n]) + [CreateCall(source[n].name, TransferDescription, Private)]
  {
  }

  /** A log that extends a log that extends `a` extends `a` by both extensions. */
  lemma LogExtends(a: seq<Call>, b: seq<Call>, c: seq<Call>)
    requires |a| <= |b| <= |c| && b[..|a|] == a && c[..|b|] == b
    ensures c[..|a|] == a && c[|a|..] == b[|a|..] + c[|b|..]
  {
    assert c[..|a|] == c[..|b|][..|a|];
  }

  /** With the gate open, `main` probes first and then creates one playlist per source playlist. */
  lemma GateOpenCreatesEveryPlaylist(w: World, probe: ProbeOutcome, source: seq<SourcePlaylist>, index: SearchIndex,
                                     created: seq<bool>, accepted: seq<seq<bool>>)
    requires Shaped(source, created, accepted)
    requires QuotaAvailable(probe)
    ensures var r := TransferSpec(w, probe, source, index, created, accepted);
      |w.log| < |r.log| && r.log[..|w.log| + 1] == w.log + [ProbeCall]
      && Filter(r.log[|w.log| + 1..], IsCreate) == CreatesFor(source)
  {
    OneCreatePerPlaylist(w.(log := w.log + [ProbeCall]), source, index, created, accepted);
  }

  /**
   * Insertion outcomes never change which requests are issued: a rejected
   * insertion does not stop later tracks or playlists.
   */
  lemma {:induction false} InsertOutcomesDoNotChangeCalls(w1: World, w2: World, source: seq<SourcePlaylist>, index: SearchIndex,
                                                         created: seq<bool>, accepted1: seq<seq<bool>>, accepted2: seq<seq<bool>>)
    requires Shaped(source, created, accepted1) && Shaped(source, created, accepted2)
    requires w1.log == w2.log && w1.nextSerial == w2.nextSerial
    ensures PlaylistsSpec(w1, source, index, created, accepted1).log == PlaylistsSpec(w2, source, index, created, accepted2).log
    ensures PlaylistsSpec(w1, source, index, created, accepted1).nextSerial == PlaylistsSpec(w2, source, index, created, accepted2).nextSerial
    decreases |source|
  {
    if source != [] {
      var n := |source| - 1;
      ShapedPrefix(source, created, accepted1, n);
      ShapedPrefix(source, created, accepted2, n);
      InsertOutcomesDoNotChangeCalls(w1, w2, source[..n], index, created[..n], accepted1[..n], accepted2[..n]);
    }
  }

  /**
   * Every playlist that existed before the run keeps its contents, and the
   * ids handed out stay fresh.
   */
  lemma {:induction false} ExistingPlaylistsUntouched(w: World, source: seq<SourcePlaylist>, index: SearchIndex,
                                                     created: seq<bool>, accepted: seq<seq<bool>>)
    requires Shaped(source, created, accepted) && Fresh(w)
    ensures var r := PlaylistsSpec(w, source, index, created, accepted);
      && Fresh(r) && w.nextSerial <= r.nextSerial
      && forall id :: id in w.playlists ==> id in r.playlists && r.playlists[id] == w.playlists[id]
    decreases |source|
  {
    if source != [] {
      var n := |source| - 1;
      ShapedPrefix(source, created, accepted, n);
      ExistingPlaylistsUntouched(w, source[..n], index, created[..n], accepted[..n]);
    }
  }

  // ---------------------------------------------------------------- scenarios

  /** A search index whose first hit is "vid1" for every query. */
  function AlwaysVid1(query: string): Option<VideoId>
  {
    Some("vid1")
  }

  /** The track loop over two identical tracks resolving to "vid1", in a new (empty) playlist. */
  lemma RepeatedTrackLoopScenario(id: PlaylistId)
    ensures var tracks := [Track("Sunrise", "A"), Track("Sunrise", "A")];
      && TracksCalls(id, [], tracks, AlwaysVid1)
         == [SearchCall("Sunrise A"), InsertCall(id, "vid1"), SearchCall("Sunrise A"), InsertCall(id, "vid1")]
      && Added([], tracks, AlwaysVid1, [true, true]) == ["vid1", "vid1"]
  {
    var t := Track("Sunrise", "A");
    var tracks := [t, t];
    assert Query(t) == "Sunrise A";
    assert TrackCalls(id, [], t, AlwaysVid1) == [SearchCall("Sunrise A"), InsertCall(id, "vid1")];
    assert Appended([], t, AlwaysVid1, true) == ["vid1"];
    assert tracks[..1] == [t] && [t][..0] == [];
    assert [true, true][..1] == [true] && [true][..0] == [];
    assert TracksCalls(id, [], [t], AlwaysVid1) == TrackCalls(id, [], t, AlwaysVid1);
    assert Added([], [t], AlwaysVid1, [true]) == ["vid1"];
  }

  /**
   * The whole run over one playlist of two identical tracks resolving to
   * "vid1": both issue an insertion, and the new playlist ends up holding
   * "vid1" twice.
   */
  lemma RepeatedTrackScenario()
    ensures var source := [SourcePlaylist("Road Trip", [Track("Sunrise", "A"), Track("Sunrise", "A")])];
      var r := TransferSpec(World(map[], 0, []), ProbeSucceeded, source, AlwaysVid1, [true], [[true, true]]);
      && r.log == [ProbeCall, CreateCall("Road Trip", TransferDescription, Private), ListCall(PlaylistId(0)),
                   SearchCall("Sunrise A"), InsertCall(PlaylistId(0), "vid1"),
                   SearchCall("Sunrise A"), InsertCall(PlaylistId(0), "vid1")]
      && r.playlists == map[PlaylistId(0) := ["vid1", "vid1"]]
  {
    var p := SourcePlaylist("Road Trip", [Track("Sunrise", "A"), Track("Sunrise", "A")]);
    var probed := World(map[], 0, [ProbeCall]);
    RepeatedTrackLoopScenario(PlaylistId(0));
    assert [p][..0] == [] && [true][..0] == [] && [[true, true]][..0] == [];
    var empty: seq<Call> := [];
    assert empty + [ProbeCall] == [ProbeCall];
    assert QuotaAvailable(ProbeSucceeded);
    assert World(map[], 0, empty).(log := empty + [ProbeCall]) == probed;
    assert TransferSpec(World(map[], 0, []), ProbeSucceeded, [p], AlwaysVid1, [true], [[true, true]])
        == PlaylistsSpec(probed, [p], AlwaysVid1, [true], [[true, true]]);
    assert PlaylistsSpec(probed, [p], AlwaysVid1, [true], [[true, true]])
        == PlaylistStep(probed, p, AlwaysVid1, true, [true, true]);
    var r := PlaylistStep(probed, p, AlwaysVid1, true, [true, true]);
    assert r.log == [ProbeCall, CreateCall("Road Trip", TransferDescription, Private), ListCall(PlaylistId(0))]
                    + TracksCalls(PlaylistId(0), [], p.tracks, AlwaysVid1);
    assert r.log == [ProbeCall, CreateCall("Road Trip", TransferDescription, Private), ListCall(PlaylistId(0)),
                     SearchCall("Sunrise A"), InsertCall(PlaylistId(0), "vid1"),
                     SearchCall("Sunrise A"), InsertCall(PlaylistId(0), "vid1")];
    var created: map<PlaylistId, seq<VideoId>> := map[PlaylistId(0) := []];
    var twice: seq<VideoId> := ["vid1", "vid1"];
    assert [] + twice == twice;
    assert r.playlists == created[PlaylistId(0) := twice];
    assert r.playlists == map[PlaylistId(0) := ["vid1", "vid1"]];
  }

  /** A hit that the snapshot already holds issues the search and no insertion. */
  lemma SnapshotHitScenario()
    ensures TracksCalls(PlaylistId(0), ["vid1"], [Track("Sunrise", "A")], AlwaysVid1) == [SearchCall("Sunrise A")]
  {
    assert [Track("Sunrise", "A")][..0] == [];
    assert Query(Track("Sunrise", "A")) == "Sunrise A";
  }
}
