/** The subscription records: `EpisodeInfo`, `ShowInfo` and `Show`, the
    latest-date computation and the lookup by show id. */
module Records {
  import opened Wrappers
  import opened Text

  /** One video of a show and whether it was downloaded or skipped. The
      video id is the API's integer id; the three URLs may be JSON null. */
  datatype EpisodeInfo = EpisodeInfo(
    videoName: string,
    videoId: int,
    publishDate: string,
    hdUrl: Option<string>,
    highUrl: Option<string>,
    lowUrl: Option<string>,
    downloadedOrSkiped: bool)

  /** `EpisodeInfo(...)` called without its last argument: the flag defaults to True. */
  function NewEpisodeInfo(videoName: string, videoId: int, publishDate: string,
                          hdUrl: Option<string>, highUrl: Option<string>, lowUrl: Option<string>): (e: EpisodeInfo)
    ensures e.downloadedOrSkiped
    ensures e.videoName == videoName && e.videoId == videoId && e.publishDate == publishDate
    ensures e.hdUrl == hdUrl && e.highUrl == highUrl && e.lowUrl == lowUrl
  {
    EpisodeInfo(videoName, videoId, publishDate, hdUrl, highUrl, lowUrl, true)
  }

  datatype ShowInfo = ShowInfo(showId: string, episodes: seq<EpisodeInfo>, downloadFolder: Option<string>)

  /** The wrapper the store keeps; it serialises as `{"show": ...}`. */
  datatype Show = Show(show: ShowInfo)

  /** The date every show starts from before any episode is seen. */
  const Sentinel: string := "1/1/1800"

  /** The larger of two dates under string order, keeping `a` on a tie. */
  function Later(a: string, b: string): string
  {
    if LexLess(a, b) then b else a
  }

  /** `get_latest_date`: the sentinel folded with every episode's date, in order. */
  function LatestDate(eps: seq<EpisodeInfo>): string
  {
    if eps == [] then Sentinel else Later(LatestDate(eps[..|eps| - 1]), eps[|eps| - 1].publishDate)
  }

  /** No episode date, and not the sentinel, is greater than the latest date. */
  lemma {:induction false} LatestDateIsUpperBound(eps: seq<EpisodeInfo>)
    ensures !LexLess(LatestDate(eps), Sentinel)
    ensures forall i :: 0 <= i < |eps| ==> !LexLess(LatestDate(eps), eps[i].publishDate)
  {
    if eps != [] {
      var init, last := eps[..|eps| - 1], eps[|eps| - 1];
      var d0 := LatestDate(init);
      LatestDateIsUpperBound(init);
      var d := LatestDate(eps);
      assert d == Later(d0, last.publishDate);
      assert !LexLess(d, d0) by {
        if LexLess(d0, last.publishDate) { LexLessAsymmetric(d0, last.publishDate); }
        else { LexLessIrreflexive(d0); }
      }
      assert !LexLess(d, last.publishDate) by {
        if !LexLess(d0, last.publishDate) {
          if d0 != last.publishDate { LexLessTotal(d0, last.publishDate); }
          else { LexLessIrreflexive(d0); }
        } else { LexLessIrreflexive(last.publishDate); }
      }
      NotLessTransitive(d, d0, Sentinel);
      forall i | 0 <= i < |eps|
        ensures !LexLess(d, eps[i].publishDate)
      {
        if i < |eps| - 1 {
          assert eps[i] == init[i];
          NotLessTransitive(d, d0, init[i].publishDate);
        }
      }
    }
  }

  /** The latest date is the sentinel or the date of one of the episodes. */
  lemma {:induction false} LatestDateIsAttained(eps: seq<EpisodeInfo>)
    ensures LatestDate(eps) == Sentinel || exists i :: 0 <= i < |eps| && LatestDate(eps) == eps[i].publishDate
  {
    if eps != [] {
      var init := eps[..|eps| - 1];
      LatestDateIsAttained(init);
      if LatestDate(eps) != eps[|eps| - 1].publishDate && LatestDate(eps) != Sentinel {
        var i :| 0 <= i < |init| && LatestDate(init) == init[i].publishDate;
        assert eps[i] == init[i];
      }
    }
  }

  /** Appending episodes never lowers the latest date, and the result is at
      least every appended date. */
  lemma {:induction false} LatestDateOfAppend(eps: seq<EpisodeInfo>, more: seq<EpisodeInfo>)
    ensures !LexLess(LatestDate(eps + more), LatestDate(eps))
    ensures forall i :: 0 <= i < |more| ==> !LexLess(LatestDate(eps + more), more[i].publishDate)
    decreases |more|
  {
    var all := eps + more;
    LatestDateIsUpperBound(all);
    forall i | 0 <= i < |more|
      ensures !LexLess(LatestDate(all), more[i].publishDate)
    {
      assert all[|eps| + i] == more[i];
    }
    LatestDateIsAttained(eps);
    if LatestDate(eps) != Sentinel {
      var i :| 0 <= i < |eps| && LatestDate(eps) == eps[i].publishDate;
      assert all[i] == eps[i];
    }
  }

  /** `ShowInfo.get_latest_date`: the loop that keeps the greatest date seen so far. */
  method GetLatestDate(info: ShowInfo) returns (latest: string)
    ensures latest == LatestDate(info.episodes)
  {
    var eps := info.episodes;
    latest := Sentinel;
    var i := 0;
    while i < |eps|
      invariant 0 <= i <= |eps|
      invariant latest == LatestDate(eps[..i])
    {
      assert eps[..i + 1][..i] == eps[..i];
      if LexLess(latest, eps[i].publishDate) {
        latest := eps[i].publishDate;
      }
      i := i + 1;
    }
    assert eps[..i] == eps;
  }

  /** `ShowInfo.contains_show_id` (and `Show.contains_show_id`, which forwards to it). */
  predicate ContainsShowId(info: ShowInfo, showId: string)
  {
    info.showId == showId
  }

  /** `Shows.contains_show_id` as a value: the index of the first show with
      the id, or None where the source returns False. */
  function FindShow(shows: seq<Show>, showId: string): (r: Option<nat>)
    ensures r.Some? ==> r.value < |shows| && ContainsShowId(shows[r.value].show, showId)
    ensures r.Some? ==> forall j :: 0 <= j < r.value ==> !ContainsShowId(shows[j].show, showId)
    ensures r.None? <==> forall j :: 0 <= j < |shows| ==> !ContainsShowId(shows[j].show, showId)
  {
    if shows == [] then None
    else if ContainsShowId(shows[0].show, showId) then Some(0)
    else match FindShow(shows[1..], showId)
      case None => None
      case Some(k) => Some(k + 1)
  }

  /** Only show ids matter to the lookup: replacing a show by one with the
      same id leaves every lookup unchanged. */
  lemma {:induction false} FindShowIgnoresContents(shows: seq<Show>, k: nat, s: Show, showId: string)
    requires k < |shows| && s.show.showId == shows[k].show.showId
    ensures FindShow(shows[k := s], showId) == FindShow(shows, showId)
    decreases |shows|
  {
    if k > 0 {
      assert shows[k := s][1..] == shows[1..][k - 1 := s];
      FindShowIgnoresContents(shows[1..], k - 1, s, showId);
    }
  }
}
