/** The remote catalogue as the subscription code sees it: pages of videos
    for a show (`get_episode_data`) and the show list (`dump_video_shows`).
    The HTTP request and status-code check are an oracle parameter. */
module Remote {
  import opened Wrappers
  import opened Text
  import opened Records

  /** One element of the `results` array of a `/videos/` page. */
  datatype Video = Video(
    name: string,
    id: int,
    publishDate: string,
    hdUrl: Option<string>,
    highUrl: Option<string>,
    lowUrl: Option<string>)

  /** What one request yields: a failure (transport error or a status code
      other than OK), or the page's results and its `number_of_page_results`. */
  datatype PageResult = FetchFailed | Page(results: seq<Video>, numberOfPageResults: int)

  /** The page the service returns for a show id and an offset. */
  type PageOracle = (string, int) -> PageResult

  /** Pages are requested 100 at a time; a page of exactly 100 asks for the next one. */
  const PageSize: int := 100

  predicate IsFullPage(p: PageResult)
  {
    p.Page? && p.numberOfPageResults == PageSize
  }

  /** Within `n` requests from `offset` the service answers with a failure
      or a page that is not full, so the recursion of `get_episode_data` stops. */
  ghost predicate Ends(oracle: PageOracle, showId: string, offset: int, n: nat)
    decreases n
  {
    n > 0 && (!IsFullPage(oracle(showId, offset)) || Ends(oracle, showId, offset + PageSize, n - 1))
  }

  /** `EpisodeInfo(video["name"], ..., skipped)` built from one result. */
  function ToEpisode(v: Video, skipped: bool): EpisodeInfo
  {
    EpisodeInfo(v.name, v.id, v.publishDate, v.hdUrl, v.highUrl, v.lowUrl, skipped)
  }

  /** The episodes of one page, one per result in order (the ensures mirror
      the body; `PageEpisodesAppend` states what the conversion keeps). */
  function PageEpisodes(results: seq<Video>, skipped: bool): (eps: seq<EpisodeInfo>)
    ensures |eps| == |results|
    ensures forall i :: 0 <= i < |eps| ==> eps[i] == ToEpisode(results[i], skipped)
  {
    seq(|results|, i requires 0 <= i < |results| => ToEpisode(results[i], skipped))
  }

  /** Converting two runs of results is converting their concatenation:
      the episodes of consecutive pages line up as the pages do. */
  lemma PageEpisodesAppend(a: seq<Video>, b: seq<Video>, skipped: bool)
    ensures PageEpisodes(a + b, skipped) == PageEpisodes(a, skipped) + PageEpisodes(b, skipped)
  {
    var lhs, rhs := PageEpisodes(a + b, skipped), PageEpisodes(a, skipped) + PageEpisodes(b, skipped);
    forall i | 0 <= i < |lhs| ensures lhs[i] == rhs[i] {
      if i < |a| {
        assert (a + b)[i] == a[i];
      } else {
        assert (a + b)[i] == b[i - |a|];
      }
    }
  }

  function ResultsOf(p: PageResult): seq<Video>
  {
    if p.Page? then p.results else []
  }

  /** `get_episode_data(api_key, show_id, offset, skipped)`: None where the
      source returns the integer 1 (first page) or raises on extending a list
      with it (a later page). Every episode carries the flag `skipped`. */
  ghost function EpisodeData(oracle: PageOracle, showId: string, offset: int, skipped: bool, n: nat): (r: Option<seq<EpisodeInfo>>)
    requires Ends(oracle, showId, offset, n)
    ensures r.Some? ==> forall i :: 0 <= i < |r.value| ==> r.value[i].downloadedOrSkiped == skipped
    decreases n
  {
    match oracle(showId, offset)
    case FetchFailed => None
    case Page(results, count) =>
      if count == PageSize then
        var rest :- EpisodeData(oracle, showId, offset + PageSize, skipped, n - 1);
        Some(PageEpisodes(results, skipped) + rest)
      else
        Some(PageEpisodes(results, skipped))
  }

  /** `get_episode_data`: the loop over one page's results, then the
      recursive request for the next page when this one holds 100. */
  method GetEpisodeData(oracle: PageOracle, showId: string, offset: int, skipped: bool, ghost n: nat)
    returns (r: Option<seq<EpisodeInfo>>)
    requires Ends(oracle, showId, offset, n)
    ensures r == EpisodeData(oracle, showId, offset, skipped, n)
    decreases n
  {
    var page := oracle(showId, offset);
    if page.FetchFailed? {
      return None;
    }
    var episodes: seq<EpisodeInfo> := [];
    var i := 0;
    while i < |page.results|
      invariant 0 <= i <= |page.results|
      invariant episodes == PageEpisodes(page.results[..i], skipped)
    {
      episodes := episodes + [ToEpisode(page.results[i], skipped)];
      i := i + 1;
    }
    assert page.results[..i] == page.results;
    if page.numberOfPageResults == PageSize {
      var rest := GetEpisodeData(oracle, showId, offset + PageSize, skipped, n - 1);
      if rest.None? {
        return None;
      }
      episodes := episodes + rest.value;
    }
    return Some(episodes);
  }

  /** The first `k` pages from `offset` are all full. */
  ghost predicate FullPages(oracle: PageOracle, showId: string, offset: int, k: nat)
    decreases k
  {
    k == 0 || (IsFullPage(oracle(showId, offset)) && FullPages(oracle, showId, offset + PageSize, k - 1))
  }

  /** The episodes of the pages at `offset`, `offset + 100`, ... (`k` pages), in order. */
  function ConcatPages(oracle: PageOracle, showId: string, offset: int, k: nat, skipped: bool): seq<EpisodeInfo>
    decreases k
  {
    if k == 0 then []
    else PageEpisodes(ResultsOf(oracle(showId, offset)), skipped)
         + ConcatPages(oracle, showId, offset + PageSize, k - 1, skipped)
  }

  /** When `k` full pages are followed by a page that is not full, the
      fetch returns exactly the concatenation of those `k + 1` pages. */
  lemma {:induction false} EpisodeDataIsConcatenation(oracle: PageOracle, showId: string, offset: int, skipped: bool, n: nat, k: nat)
    requires Ends(oracle, showId, offset, n)
    requires FullPages(oracle, showId, offset, k)
    requires oracle(showId, offset + PageSize * k).Page? && !IsFullPage(oracle(showId, offset + PageSize * k))
    ensures EpisodeData(oracle, showId, offset, skipped, n) == Some(ConcatPages(oracle, showId, offset, k + 1, skipped))
    decreases k
  {
    if k == 0 {
      assert offset + PageSize * k == offset;
      var page := oracle(showId, offset);
      assert ConcatPages(oracle, showId, offset + PageSize, 0, skipped) == [];
      assert ConcatPages(oracle, showId, offset, 1, skipped) == PageEpisodes(page.results, skipped) + [];
      assert page.numberOfPageResults != PageSize;
      assert EpisodeData(oracle, showId, offset, skipped, n) == Some(PageEpisodes(page.results, skipped));
      assert PageEpisodes(page.results, skipped) + [] == PageEpisodes(page.results, skipped);
      assert ConcatPages(oracle, showId, offset, k + 1, skipped) == ConcatPages(oracle, showId, offset, 1, skipped);
    } else {
      assert offset + PageSize + PageSize * (k - 1) == offset + PageSize * k;
      EpisodeDataIsConcatenation(oracle, showId, offset + PageSize, skipped, n - 1, k - 1);
    }
  }

  /** When `k` full pages are followed by a failed request, the whole fetch fails. */
  lemma {:induction false} EpisodeDataFailsAfterFullPages(oracle: PageOracle, showId: string, offset: int, skipped: bool, n: nat, k: nat)
    requires Ends(oracle, showId, offset, n)
    requires FullPages(oracle, showId, offset, k)
    requires oracle(showId, offset + PageSize * k).FetchFailed?
    ensures EpisodeData(oracle, showId, offset, skipped, n).None?
    decreases k
  {
    if k > 0 {
      assert offset + PageSize + PageSize * (k - 1) == offset + PageSize * k;
      EpisodeDataFailsAfterFullPages(oracle, showId, offset + PageSize, skipped, n - 1, k - 1);
    }
  }

  /** A service that answers 100, 100 and then 37 results yields 237 episodes. */
  lemma ThreePages(oracle: PageOracle, showId: string, skipped: bool, n: nat)
    requires n >= 3
    requires oracle(showId, 0).Page? && |oracle(showId, 0).results| == 100 && oracle(showId, 0).numberOfPageResults == 100
    requires oracle(showId, 100).Page? && |oracle(showId, 100).results| == 100 && oracle(showId, 100).numberOfPageResults == 100
    requires oracle(showId, 200).Page? && |oracle(showId, 200).results| == 37 && oracle(showId, 200).numberOfPageResults == 37
    ensures Ends(oracle, showId, 0, n)
    ensures EpisodeData(oracle, showId, 0, skipped, n).Some?
    ensures |EpisodeData(oracle, showId, 0, skipped, n).value| == 237
  {
    assert Ends(oracle, showId, 200, n - 2);
    assert Ends(oracle, showId, 100, n - 1);
    assert FullPages(oracle, showId, 0, 2) by {
      assert FullPages(oracle, showId, 200, 0);
      assert FullPages(oracle, showId, 100, 1);
    }
    EpisodeDataIsConcatenation(oracle, showId, 0, skipped, n, 2);
    assert |ConcatPages(oracle, showId, 200, 1, skipped)| == 37 by {
      assert ConcatPages(oracle, showId, 300, 0, skipped) == [];
    }
  }

  /** One element of the `/video_shows/` results: the show id and its `latest` list. */
  datatype VideoShow = VideoShow(id: int, latest: seq<Video>)

  /** The show list that `dump_video_shows` builds: one Show per result,
      keyed by `str(id)`, holding only the latest episode (URLs None, flag
      left at its default). None where `latest` is empty and `[0]` raises. */
  function RemoteShows(results: seq<VideoShow>): (r: Option<seq<Show>>)
    ensures r.Some? <==> forall i :: 0 <= i < |results| ==> |results[i].latest| > 0
    ensures r.Some? ==> |r.value| == |results|
    ensures r.Some? ==> forall i :: 0 <= i < |results| ==>
              && r.value[i].show.showId == IntToString(results[i].id)
              && r.value[i].show.downloadFolder.None?
              && LatestDate(r.value[i].show.episodes) == Later(Sentinel, results[i].latest[0].publishDate)
  {
    if forall i :: 0 <= i < |results| ==> |results[i].latest| > 0 then
      Some(seq(|results|, i requires 0 <= i < |results| && |results[i].latest| > 0 =>
        var v := results[i].latest[0];
        Show(ShowInfo(IntToString(results[i].id), [NewEpisodeInfo(v.name, v.id, v.publishDate, None, None, None)], None))))
    else
      None
  }
}
