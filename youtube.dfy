/**
 * The YouTube side: `_get_playlist_content` reads a playlist page by page,
 * and `update_playlist` inserts every video ID that is not already there,
 * skipping IDs the API does not know and stopping on any other API error.
 */
module YouTube {
  import opened Wrappers
  import opened Http
  import opened Dedup

  /** `maxResults="50"`: the largest page `playlistItems.list` returns. */
  const PageSize: nat := 50

  /** A playlist item, reduced to `snippet.resourceId.videoId`. */
  datatype PlaylistItem = PlaylistItem(videoId: string)

  /** One `playlistItems.list` response: its items and, when more follow, a page token. */
  datatype ItemPage = ItemPage(items: seq<PlaylistItem>, nextPageToken: Option<nat>)

  /** What `playlistItems.insert` answers for one video: success, or an `HttpError` status. */
  datatype InsertOutcome = Inserted | HttpError(status: int)

  /** What `update_playlist` reports for one ID it handled without raising. */
  datatype Decision = AlreadyInPlaylist | Added | NotFound

  /**
   * The playlist as the API holds it.  A page token is the index of the page
   * it names; `verdict` is how the API answers an insert of each video.
   */
  class PlaylistService {
    var items: seq<PlaylistItem>
    const verdict: string -> InsertOutcome

    constructor (initial: seq<PlaylistItem>, verdict: string -> InsertOutcome)
      ensures items == initial && this.verdict == verdict
    {
      items := initial;
      this.verdict := verdict;
    }

    /** A token the service hands out names a page that starts inside the playlist. */
    predicate ValidToken(token: Option<nat>)
      reads this
    {
      token.None? || token.value * PageSize < |items|
    }

    /**
     * `playlistItems.list(maxResults=50, pageToken=token)`: the page the token
     * names (the first page without one), with a token exactly when items follow.
     */
    function Page(token: Option<nat>): (page: ItemPage)
      reads this
      requires ValidToken(token)
      ensures |page.items| <= PageSize
      ensures page.nextPageToken.Some? ==> |page.items| == PageSize
      ensures token.Some? ==> |page.items| > 0
    {
      var start := token.GetOr(0) * PageSize;
      if start + PageSize < |items| then ItemPage(items[start..start + PageSize], Some(token.GetOr(0) + 1))
      else ItemPage(items[start..], None)
    }

    /** `playlistItems.insert`: the API's answer, and the video appended when it succeeds. */
    method Insert(videoId: string) returns (outcome: InsertOutcome)
      modifies this
      ensures outcome == verdict(videoId)
      ensures items == old(items) + (if outcome.Inserted? then [PlaylistItem(videoId)] else [])
    {
      outcome := verdict(videoId);
      if outcome.Inserted? {
        items := items + [PlaylistItem(videoId)];
      }
    }
  }

  /** The video IDs of a list of items, in order. */
  function VideoIds(items: seq<PlaylistItem>): (ids: seq<string>)
    ensures |ids| == |items|
    ensures forall i :: 0 <= i < |items| ==> ids[i] == items[i].videoId
  {
    seq(|items|, i requires 0 <= i < |items| => items[i].videoId)
  }

  /** An item is nothing but its video ID, so the IDs determine the items. */
  lemma VideoIdsInjective(a: seq<PlaylistItem>, b: seq<PlaylistItem>)
    requires VideoIds(a) == VideoIds(b)
    ensures a == b
  {
    assert forall i :: 0 <= i < |a| ==> a[i] == PlaylistItem(VideoIds(a)[i]);
  }

  /**
   * `_get_playlist_content`: follows page tokens until a page comes without
   * one and returns the video ID of every item, so no item is lost, repeated
   * or reordered by the paging.
   */
  method GetPlaylistContent(service: PlaylistService) returns (videoIds: seq<string>)
    ensures videoIds == VideoIds(service.items)
  {
    var playlist := service.Page(None);
    var items := playlist.items;
    var hasNextPage := playlist.nextPageToken.Some?;
    var nextPageToken := playlist.nextPageToken;
    while hasNextPage
      invariant |items| <= |service.items| && items == service.items[..|items|]
      invariant hasNextPage ==> nextPageToken.Some? && nextPageToken.value * PageSize == |items| < |service.items|
      invariant !hasNextPage ==> |items| == |service.items|
      decreases |service.items| - |items|
    {
      var nextPage := service.Page(nextPageToken);
      items := items + nextPage.items;
      if nextPage.nextPageToken.None? {
        hasNextPage := false;
      } else {
        nextPageToken := nextPage.nextPageToken;
      }
    }
    assert items == service.items;
    videoIds := [];
    for i := 0 to |items|
      invariant |videoIds| == i
      invariant forall j :: 0 <= j < i ==> videoIds[j] == items[j].videoId
    {
      videoIds := videoIds + [items[i].videoId];
    }
  }

  /** The playlist after a run, the decision for each handled ID, and the error that ended it, if any. */
  datatype UpdateResult = UpdateResult(playlist: seq<string>, decisions: seq<Decision>, failure: Option<RequestError>)

  /** Earlier decisions followed by the run on the remaining IDs. */
  function Continue(decisions: seq<Decision>, rest: UpdateResult): UpdateResult
  {
    UpdateResult(rest.playlist, decisions + rest.decisions, rest.failure)
  }

  lemma ContinueTwice(a: seq<Decision>, b: seq<Decision>, rest: UpdateResult)
    ensures Continue(a, Continue(b, rest)) == Continue(a + b, rest)
  {
    assert a + (b + rest.decisions) == (a + b) + rest.decisions;
  }

  /**
   * `update_playlist` on the playlist's video IDs: an ID already in the
   * playlist is skipped; otherwise it is inserted, a 404 skips it, a 403 is
   * `QuotaExceeded` and any other status an unexpected API error, both
   * ending the run.
   */
  function Update(playlist: seq<string>, ids: seq<string>, verdict: string -> InsertOutcome): UpdateResult
    decreases |ids|
  {
    if ids == [] then UpdateResult(playlist, [], None)
    else if ids[0] in playlist then Continue([AlreadyInPlaylist], Update(playlist, ids[1..], verdict))
    else match verdict(ids[0])
      case Inserted => Continue([Added], Update(playlist + [ids[0]], ids[1..], verdict))
      case HttpError(status) =>
        if status == 404 then Continue([NotFound], Update(playlist, ids[1..], verdict))
        else if status == 403 then UpdateResult(playlist, [], Some(QuotaExceeded))
        else UpdateResult(playlist, [], Some(UnexpectedApiError(status)))
  }

  /** The IDs whose decision is `Added`, in input order. */
  function AddedIds(ids: seq<string>, decisions: seq<Decision>): seq<string>
  {
    if decisions == [] || ids == [] then []
    else (if decisions[0] == Added then [ids[0]] else []) + AddedIds(ids[1..], decisions[1..])
  }

  /** The decision for one ID against the playlist as it stands when the ID is reached. */
  predicate Decided(playlist: seq<string>, id: string, verdict: string -> InsertOutcome, decision: Decision)
  {
    && (decision == AlreadyInPlaylist <==> id in playlist)
    && (decision == Added <==> id !in playlist && verdict(id) == Inserted)
    && (decision == NotFound <==> id !in playlist && verdict(id) == HttpError(404))
  }

  /**
   * Handling a list in two parts is handling the first part and, unless it
   * raised, going on with the second from the playlist it left.
   */
  lemma {:induction false} UpdateSplit(playlist: seq<string>, a: seq<string>, b: seq<string>, verdict: string -> InsertOutcome)
    ensures var first := Update(playlist, a, verdict);
      Update(playlist, a + b, verdict) ==
        if first.failure.Some? then first
        else Continue(first.decisions, Update(first.playlist, b, verdict))
    decreases |a|
  {
    var first := Update(playlist, a, verdict);
    if a == [] {
      assert a + b == b;
    } else {
      assert (a + b)[0] == a[0] && (a + b)[1..] == a[1..] + b;
      var id := a[0];
      if id in playlist {
        UpdateSplit(playlist, a[1..], b, verdict);
        var inner := Update(playlist, a[1..], verdict);
        if inner.failure.None? {
          ContinueTwice([AlreadyInPlaylist], inner.decisions, Update(inner.playlist, b, verdict));
        }
      } else if verdict(id) == Inserted {
        UpdateSplit(playlist + [id], a[1..], b, verdict);
        var inner := Update(playlist + [id], a[1..], verdict);
        if inner.failure.None? {
          ContinueTwice([Added], inner.decisions, Update(inner.playlist, b, verdict));
        }
      } else if verdict(id) == HttpError(404) {
        UpdateSplit(playlist, a[1..], b, verdict);
        var inner := Update(playlist, a[1..], verdict);
        if inner.failure.None? {
          ContinueTwice([NotFound], inner.decisions, Update(inner.playlist, b, verdict));
        }
      }
    }
  }

  /**
   * Every ID gets a decision unless the run raised; then the ID it stopped at
   * is not in the playlist, and its insert failed with a status other than
   * 404: 403 is `QuotaExceeded`, anything else an unexpected API error.
   */
  lemma {:induction false} UpdateOutcome(playlist: seq<string>, ids: seq<string>, verdict: string -> InsertOutcome)
    ensures var r := Update(playlist, ids, verdict);
      && |r.decisions| <= |ids|
      && (r.failure.None? ==> |r.decisions| == |ids|)
      && (r.failure.Some? ==>
            && |r.decisions| < |ids|
            && ids[|r.decisions|] !in r.playlist
            && verdict(ids[|r.decisions|]).HttpError?
            && verdict(ids[|r.decisions|]).status != 404
            && r.failure.value == (if verdict(ids[|r.decisions|]).status == 403 then QuotaExceeded
                                   else UnexpectedApiError(verdict(ids[|r.decisions|]).status)))
    decreases |ids|
  {
    if ids != [] {
      if ids[0] in playlist || verdict(ids[0]) == HttpError(404) {
        UpdateOutcome(playlist, ids[1..], verdict);
      } else if verdict(ids[0]) == Inserted {
        UpdateOutcome(playlist + [ids[0]], ids[1..], verdict);
      }
    }
  }

  /**
   * The playlist only grows, by the IDs decided `Added`, appended in input
   * order; nothing already there is moved or removed.
   */
  lemma {:induction false} UpdateAppendsAdded(playlist: seq<string>, ids: seq<string>, verdict: string -> InsertOutcome)
    ensures Update(playlist, ids, verdict).playlist ==
      playlist + AddedIds(ids, Update(playlist, ids, verdict).decisions)
    decreases |ids|
  {
    var r := Update(playlist, ids, verdict);
    if ids == [] || (ids[0] !in playlist && verdict(ids[0]).HttpError? && verdict(ids[0]).status != 404) {
      assert r.decisions == [] && r.playlist == playlist;
      assert playlist + [] == playlist;
    } else {
      var next := if ids[0] !in playlist && verdict(ids[0]) == Inserted then playlist + [ids[0]] else playlist;
      var rest := Update(next, ids[1..], verdict);
      UpdateAppendsAdded(next, ids[1..], verdict);
      assert r.playlist == rest.playlist && r.decisions[1..] == rest.decisions;
      if next == playlist {
        assert r.decisions[0] != Added;
      } else {
        assert r.decisions[0] == Added;
        assert playlist + [ids[0]] + AddedIds(ids[1..], rest.decisions) ==
          playlist + ([ids[0]] + AddedIds(ids[1..], rest.decisions));
      }
    }
  }

  /**
   * A playlist without duplicates keeps none: an ID is inserted only when it
   * is absent, and the playlist is re-read before every ID.  Everything in the
   * result was there before or was requested and accepted by the API.
   */
  lemma {:induction false} UpdateKeepsDistinct(playlist: seq<string>, ids: seq<string>, verdict: string -> InsertOutcome)
    ensures Distinct(playlist) ==> Distinct(Update(playlist, ids, verdict).playlist)
    ensures forall x :: x in Update(playlist, ids, verdict).playlist ==>
      x in playlist || (x in ids && verdict(x) == Inserted)
    decreases |ids|
  {
    if ids != [] && ids[0] !in playlist {
      var id := ids[0];
      if verdict(id) == Inserted {
        UpdateKeepsDistinct(playlist + [id], ids[1..], verdict);
        if Distinct(playlist) {
          assert Distinct(playlist + [id]) by {
            forall i, j | 0 <= i < j < |playlist + [id]|
              ensures (playlist + [id])[i] != (playlist + [id])[j]
            {
              if j == |playlist| {
                assert (playlist + [id])[i] == playlist[i];
              }
            }
          }
        }
      } else if verdict(id) == HttpError(404) {
        UpdateKeepsDistinct(playlist, ids[1..], verdict);
      }
    } else if ids != [] {
      UpdateKeepsDistinct(playlist, ids[1..], verdict);
    }
  }

  /**
   * The decision for the `i`-th ID is taken against the playlist as the
   * earlier IDs left it, and those earlier IDs raised nothing.
   */
  lemma DecisionAt(playlist: seq<string>, ids: seq<string>, verdict: string -> InsertOutcome, i: nat)
    requires i < |Update(playlist, ids, verdict).decisions|
    ensures i < |ids|
    ensures Update(playlist, ids[..i], verdict).failure.None?
    ensures Decided(Update(playlist, ids[..i], verdict).playlist, ids[i], verdict,
                    Update(playlist, ids, verdict).decisions[i])
  {
    UpdateOutcome(playlist, ids, verdict);
    assert ids == ids[..i] + ids[i..];
    UpdateSplit(playlist, ids[..i], ids[i..], verdict);
    var first := Update(playlist, ids[..i], verdict);
    UpdateOutcome(playlist, ids[..i], verdict);
    assert first.failure.None?;
    var rest := Update(first.playlist, ids[i..], verdict);
    assert ids[i..][0] == ids[i] && ids[i..][1..] == ids[i + 1..];
    assert Update(playlist, ids, verdict).decisions[i] == rest.decisions[0];
  }

  /**
   * After a run that raised nothing, every requested ID is in the playlist
   * unless the API answered 404 for it.
   */
  lemma {:induction false} RequestedPresent(playlist: seq<string>, ids: seq<string>, verdict: string -> InsertOutcome)
    requires Update(playlist, ids, verdict).failure.None?
    ensures forall x :: x in playlist ==> x in Update(playlist, ids, verdict).playlist
    ensures forall x :: x in ids ==> x in Update(playlist, ids, verdict).playlist || verdict(x) == HttpError(404)
    decreases |ids|
  {
    if ids != [] {
      if ids[0] in playlist || verdict(ids[0]) == HttpError(404) {
        RequestedPresent(playlist, ids[1..], verdict);
      } else {
        RequestedPresent(playlist + [ids[0]], ids[1..], verdict);
      }
      assert forall x :: x in ids ==> x == ids[0] || x in ids[1..];
    }
  }

  /** A run over IDs that are all present or unknown to the API changes nothing and raises nothing. */
  lemma {:induction false} NothingToAdd(playlist: seq<string>, ids: seq<string>, verdict: string -> InsertOutcome)
    requires forall x :: x in ids ==> x in playlist || verdict(x) == HttpError(404)
    ensures Update(playlist, ids, verdict).playlist == playlist
    ensures Update(playlist, ids, verdict).failure.None?
    ensures Added !in Update(playlist, ids, verdict).decisions
    decreases |ids|
  {
    if ids != [] {
      assert forall x :: x in ids[1..] ==> x in ids;
      NothingToAdd(playlist, ids[1..], verdict);
    }
  }

  /**
   * Running the update a second time with the same IDs, after a run that
   * raised nothing, adds nothing, leaves the playlist as it is and raises
   * nothing.
   */
  lemma UpdateIdempotent(playlist: seq<string>, ids: seq<string>, verdict: string -> InsertOutcome)
    requires Update(playlist, ids, verdict).failure.None?
    ensures var again := Update(Update(playlist, ids, verdict).playlist, ids, verdict);
      && again.playlist == Update(playlist, ids, verdict).playlist
      && again.failure.None?
      && Added !in again.decisions
  {
    RequestedPresent(playlist, ids, verdict);
    NothingToAdd(Update(playlist, ids, verdict).playlist, ids, verdict);
  }

  /**
   * `update_playlist`: re-reads the playlist before every ID, so an ID
   * repeated in the input is skipped once it has been added.  The
   * postconditions speak of the playlist's video IDs; by `VideoIdsInjective`
   * they fix `service.items` completely.
   */
  method UpdatePlaylist(service: PlaylistService, videoIds: seq<string>)
    returns (decisions: seq<Decision>, failure: Option<RequestError>)
    modifies service
    ensures VideoIds(service.items) == Update(VideoIds(old(service.items)), videoIds, service.verdict).playlist
    ensures decisions == Update(VideoIds(old(service.items)), videoIds, service.verdict).decisions
    ensures failure == Update(VideoIds(old(service.items)), videoIds, service.verdict).failure
  {
    ghost var whole := Update(VideoIds(service.items), videoIds, service.verdict);
    decisions := [];
    failure := None;
    for index := 0 to |videoIds|
      invariant whole == Continue(decisions, Update(VideoIds(service.items), videoIds[index..], service.verdict))
    {
      var videoId := videoIds[index];
      ghost var rest := Update(VideoIds(service.items), videoIds[index..], service.verdict);
      assert videoIds[index..][0] == videoId && videoIds[index..][1..] == videoIds[index + 1..];
      var content := GetPlaylistContent(service);
      if videoId in content {
        assert rest == Continue([AlreadyInPlaylist], Update(VideoIds(service.items), videoIds[index + 1..], service.verdict));
        ContinueTwice(decisions, [AlreadyInPlaylist], Update(VideoIds(service.items), videoIds[index + 1..], service.verdict));
        decisions := decisions + [AlreadyInPlaylist];
      } else {
        ghost var before := VideoIds(service.items);
        var outcome := service.Insert(videoId);
        match outcome {
          case Inserted =>
            assert VideoIds(service.items) == before + [videoId];
            assert rest == Continue([Added], Update(before + [videoId], videoIds[index + 1..], service.verdict));
            ContinueTwice(decisions, [Added], Update(VideoIds(service.items), videoIds[index + 1..], service.verdict));
            decisions := decisions + [Added];
          case HttpError(status) =>
            assert VideoIds(service.items) == before;
            if status == 404 {
              assert rest == Continue([NotFound], Update(before, videoIds[index + 1..], service.verdict));
              ContinueTwice(decisions, [NotFound], Update(VideoIds(service.items), videoIds[index + 1..], service.verdict));
              decisions := decisions + [NotFound];
            } else if status == 403 {
              assert rest == UpdateResult(before, [], Some(QuotaExceeded));
              failure := Some(QuotaExceeded);
              assert decisions + [] == decisions;
              return;
            } else {
              assert rest == UpdateResult(before, [], Some(UnexpectedApiError(status)));
              failure := Some(UnexpectedApiError(status));
              assert decisions + [] == decisions;
              return;
            }
        }
      }
    }
    assert decisions + [] == decisions;
  }
}
