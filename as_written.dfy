/** The download pass of `download_subscriptions` as the code is written:
    `prepare_and_download` calls `url.split(".")` before `download_video`
    can reject a None URL, so a pending episode without a high-quality URL
    raises `AttributeError` before its flag is set. */
module AsWritten {
  import opened Wrappers
  import opened Text
  import opened Records
  import opened Json
  import opened Store
  import opened Remote
  import opened Sync
  import opened Downloader
  import opened PassProperties

  /** A pending episode whose high-quality URL is null: `url.split` raises on it. */
  predicate Stuck(e: EpisodeInfo)
  {
    !e.downloadedOrSkiped && e.highUrl.None?
  }

  /** Where the inner loop as written raises: the first stuck episode, if any. */
  function FirstStuck(eps: seq<EpisodeInfo>): (r: Option<nat>)
    ensures r.Some? ==> r.value < |eps| && Stuck(eps[r.value])
    ensures r.Some? ==> forall i :: 0 <= i < r.value ==> !Stuck(eps[i])
    ensures r.None? ==> forall i :: 0 <= i < |eps| ==> !Stuck(eps[i])
  {
    if eps == [] then None
    else if Stuck(eps[0]) then Some(0)
    else
      match FirstStuck(eps[1..])
      case None => None
      case Some(j) => Some(j + 1)
  }

  /** A stuck episode with no stuck one before it is the first stuck one. */
  lemma FirstStuckIs(eps: seq<EpisodeInfo>, j: nat)
    requires j < |eps| && Stuck(eps[j])
    requires forall i :: 0 <= i < j ==> !Stuck(eps[i])
    ensures FirstStuck(eps) == Some(j)
  {
    var r := FirstStuck(eps);
    assert r.Some?;
  }

  /** The inner loop as written for the store's show `k`: the corrected
      loop when no episode is stuck; otherwise the episodes before the
      first stuck one are downloaded, flagged and saved, and the pass stops
      there with that episode still pending. */
  function FlushAsWritten(st: PassState, k: nat): PassState
    requires k < |st.shows|
  {
    var info := st.shows[k].show;
    var eps := info.episodes;
    match FirstStuck(eps)
    case None => Flush(st, k)
    case Some(j) =>
      PassState(st.shows[k := Show(info.(episodes := MarkAll(eps[..j]) + eps[j..]))],
                st.downloads + PendingDownloads(eps[..j], info.downloadFolder),
                st.saves + PendingCount(eps[..j]),
                true)
  }

  /** One iteration of the outer loop as written: `ProcessRemote` with the
      inner loop as written. */
  ghost function ProcessRemoteAsWritten(st: PassState, r: Show, oracle: PageOracle, n: nat): PassState
    requires !st.crashed
    requires forall id :: Ends(oracle, id, 0, n)
  {
    match FindShow(st.shows, r.show.showId)
    case None => st
    case Some(k) =>
      if LexLess(LatestDate(st.shows[k].show.episodes), LatestDate(r.show.episodes)) then
        match EpisodeData(oracle, st.shows[k].show.showId, 0, true, n)
        case None => st.(crashed := true)
        case Some(fetched) =>
          FlushAsWritten(st.(shows := st.shows[k := Synced(st.shows[k], fetched)], saves := st.saves + 1), k)
      else
        FlushAsWritten(st, k)
  }

  /** The outer loop as written over the remote show list, stopping at an exception. */
  ghost function PassAsWritten(st: PassState, remote: seq<Show>, oracle: PageOracle, n: nat): PassState
    requires forall id :: Ends(oracle, id, 0, n)
    decreases |remote|
  {
    if remote == [] || st.crashed then st
    else PassAsWritten(ProcessRemoteAsWritten(st, remote[0], oracle, n), remote[1..], oracle, n)
  }

  /** Flagged episodes ask for nothing, and flagging them again changes nothing. */
  lemma {:induction false} MarkedHasNothingPending(eps: seq<EpisodeInfo>, folder: Option<string>)
    ensures PendingCount(MarkAll(eps)) == 0
    ensures PendingDownloads(MarkAll(eps), folder) == []
    ensures MarkAll(MarkAll(eps)) == MarkAll(eps)
  {
    if eps != [] {
      var init := eps[..|eps| - 1];
      assert MarkAll(eps)[..|eps| - 1] == MarkAll(init);
      MarkedHasNothingPending(init, folder);
    }
  }

  /** The transfers and saves for a prefix of the episodes are a prefix of
      those for all of them. */
  lemma {:induction false} PendingOfPrefix(eps: seq<EpisodeInfo>, j: nat, folder: Option<string>)
    requires j <= |eps|
    ensures PendingDownloads(eps[..j], folder) <= PendingDownloads(eps, folder)
    ensures PendingCount(eps[..j]) <= PendingCount(eps)
    decreases |eps|
  {
    if j < |eps| {
      var init := eps[..|eps| - 1];
      assert init[..j] == eps[..j];
      PendingOfPrefix(init, j, folder);
    } else {
      assert eps[..j] == eps;
    }
  }

  /** At a stuck episode the inner loop as written stops the pass. It has
      asked for a prefix of the corrected loop's transfers and saved no more
      often; the stuck episode is still pending and still the first stuck
      one, and every episode before it is flagged. */
  lemma FlushAsWrittenStops(st: PassState, k: nat)
    requires k < |st.shows|
    requires FirstStuck(st.shows[k].show.episodes).Some?
    ensures var eps := st.shows[k].show.episodes;
            var j := FirstStuck(eps).value;
            var next := FlushAsWritten(st, k);
            var left := next.shows[k].show.episodes;
            && next.crashed
            && |next.shows| == |st.shows|
            && (forall m :: 0 <= m < |st.shows| && m != k ==> next.shows[m] == st.shows[m])
            && next.downloads <= Flush(st, k).downloads
            && next.saves <= Flush(st, k).saves
            && |left| == |eps| && left[j] == eps[j]
            && FirstStuck(left) == Some(j)
            && (forall i :: 0 <= i < j ==> left[i].downloadedOrSkiped)
  {
    var info := st.shows[k].show;
    var eps := info.episodes;
    var j := FirstStuck(eps).value;
    var left := MarkAll(eps[..j]) + eps[j..];
    PendingOfPrefix(eps, j, info.downloadFolder);
    assert left[j] == eps[j];
    forall i | 0 <= i < j
      ensures left[i].downloadedOrSkiped && !Stuck(left[i])
    {
      assert left[i] == eps[i].(downloadedOrSkiped := true);
    }
    FirstStuckIs(left, j);
  }

  /** Rerun on a show whose episodes before the first stuck one are all
      flagged, the inner loop as written asks for nothing, saves nothing,
      changes nothing, and stops the pass again at the same episode. */
  lemma FlushAsWrittenStuckAgain(st: PassState, k: nat)
    requires k < |st.shows|
    requires FirstStuck(st.shows[k].show.episodes).Some?
    requires forall i :: 0 <= i < FirstStuck(st.shows[k].show.episodes).value ==>
               st.shows[k].show.episodes[i].downloadedOrSkiped
    ensures FlushAsWritten(st, k) == st.(crashed := true)
  {
    var info := st.shows[k].show;
    var eps := info.episodes;
    var j := FirstStuck(eps).value;
    assert MarkAll(eps[..j]) == eps[..j];
    assert MarkAll(eps[..j]) + eps[j..] == eps;
    MarkedHasNothingPending(eps[..j], info.downloadFolder);
    assert st.shows[k := Show(info.(episodes := eps))] == st.shows;
  }

  /** A remote show dated no later than the store's show only runs the
      inner loop as written. */
  lemma ProcessRemoteAsWrittenWithoutSync(st: PassState, r: Show, k: nat, oracle: PageOracle, n: nat)
    requires !st.crashed
    requires forall id :: Ends(oracle, id, 0, n)
    requires FindShow(st.shows, r.show.showId) == Some(k)
    requires !LexLess(LatestDate(st.shows[k].show.episodes), LatestDate(r.show.episodes))
    ensures PassAsWritten(st, [r], oracle, n) == FlushAsWritten(st, k)
  {
    assert [r][1..] == [];
    var next := FlushAsWritten(st, k);
    if !next.crashed {
      assert PassAsWritten(next, [], oracle, n) == next;
    }
  }

  /** The first run of the scenario below: the episode with a URL is
      downloaded, flagged and saved, then the one without a URL raises. */
  lemma ScenarioFirstRun(e1: EpisodeInfo, e2: EpisodeInfo, folder: Option<string>)
    requires !e1.downloadedOrSkiped && e1.highUrl.Some?
    requires Stuck(e2)
    ensures FlushAsWritten(PassState([Show(ShowInfo("100", [e1, e2], folder))], [], 0, false), 0) ==
              PassState([Show(ShowInfo("100", [e1.(downloadedOrSkiped := true), e2], folder))],
                        [Download(e1.highUrl.value, DownloadFilename(e1.highUrl.value, e1.videoName, folder))],
                        1, true)
  {
    var eps := [e1, e2];
    FirstStuckIs(eps, 1);
    assert eps[..1] == [e1] && eps[1..] == [e2] && [e1][..0] == [];
    EpisodeDownloadsWithUrl(e1, folder);
    assert PendingDownloads([e1], folder) == PendingDownloads([], folder) + EpisodeDownloads(e1, folder);
    assert PendingCount([e1]) == PendingCount([]) + 1;
    assert MarkAll([e1]) + [e2] == [e1.(downloadedOrSkiped := true), e2];
  }

  /** The corrected run of the scenario below: both episodes are flagged,
      only the one with a URL is downloaded, and the store is saved twice. */
  lemma ScenarioCorrectedRun(e1: EpisodeInfo, e2: EpisodeInfo, folder: Option<string>)
    requires !e1.downloadedOrSkiped && e1.highUrl.Some?
    requires Stuck(e2)
    ensures Flush(PassState([Show(ShowInfo("100", [e1, e2], folder))], [], 0, false), 0) ==
              PassState([Show(ShowInfo("100", [e1.(downloadedOrSkiped := true), e2.(downloadedOrSkiped := true)], folder))],
                        [Download(e1.highUrl.value, DownloadFilename(e1.highUrl.value, e1.videoName, folder))],
                        2, false)
  {
    var eps := [e1, e2];
    var info := ShowInfo("100", eps, folder);
    FlushSingle(info);
    assert eps[..1] == [e1] && [e1][..0] == [];
    EpisodeDownloadsWithUrl(e1, folder);
    assert EpisodeDownloads(e2, folder) == [];
    assert PendingDownloads([e1], folder) == PendingDownloads([], folder) + EpisodeDownloads(e1, folder);
    assert PendingDownloads(eps, folder) == PendingDownloads([e1], folder) + EpisodeDownloads(e2, folder);
    assert PendingCount(eps) == PendingCount([e1]) + 1;
    assert PendingCount([e1]) == PendingCount([]) + 1;
    assert MarkAll(eps) == [e1.(downloadedOrSkiped := true), e2.(downloadedOrSkiped := true)];
  }

  /** Show "100" holds two pending episodes: one dated 2020-01-01 with a
      high-quality URL and one dated 2020-02-15 without, and the show list
      reports 2020-02-15. As written, the first run downloads the first
      episode, saves, and raises at the second; a rerun from the saved
      document downloads nothing, saves nothing and raises at the same
      episode, so every later run stops there. With the None check taking
      effect the pass completes, flags both episodes and saves twice. */
  lemma StuckEpisodeScenario(e1: EpisodeInfo, e2: EpisodeInfo, folder: Option<string>, listed: EpisodeInfo,
                             oracle: PageOracle, n: nat)
    requires forall id :: Ends(oracle, id, 0, n)
    requires e1.publishDate == "2020-01-01" && !e1.downloadedOrSkiped && e1.highUrl.Some?
    requires e2.publishDate == "2020-02-15" && !e2.downloadedOrSkiped && e2.highUrl.None?
    requires listed.publishDate == "2020-02-15"
    ensures var store := [Show(ShowInfo("100", [e1, e2], folder))];
            var remote := [Show(ShowInfo("100", [listed], None))];
            var transfer := Download(e1.highUrl.value, DownloadFilename(e1.highUrl.value, e1.videoName, folder));
            var saved := [Show(ShowInfo("100", [e1.(downloadedOrSkiped := true), e2], folder))];
            var first := PassAsWritten(PassState(store, [], 0, false), remote, oracle, n);
            var second := PassAsWritten(PassState(Loaded(Some(ShowsToJson(first.shows))), [], 0, false), remote, oracle, n);
            var corrected := Pass(PassState(store, [], 0, false), remote, oracle, n);
            && first == PassState(saved, [transfer], 1, true)
            && second == PassState(saved, [], 0, true)
            && corrected == PassState([Show(ShowInfo("100", [e1.(downloadedOrSkiped := true),
                                                               e2.(downloadedOrSkiped := true)], folder))],
                                      [transfer], 2, false)
  {
    var saved := [Show(ShowInfo("100", [e1.(downloadedOrSkiped := true), e2], folder))];
    ScenarioPassAsWritten(e1, e2, folder, listed, oracle, n);
    SaveThenLoad(saved);
    ScenarioRerunAsWritten(e1.(downloadedOrSkiped := true), e2, folder, listed, oracle, n);
    ScenarioPassCorrected(e1, e2, folder, listed, oracle, n);
  }

  /** The scenario's first run as written. */
  lemma ScenarioPassAsWritten(e1: EpisodeInfo, e2: EpisodeInfo, folder: Option<string>, listed: EpisodeInfo,
                              oracle: PageOracle, n: nat)
    requires forall id :: Ends(oracle, id, 0, n)
    requires e1.publishDate == "2020-01-01" && !e1.downloadedOrSkiped && e1.highUrl.Some?
    requires e2.publishDate == "2020-02-15" && !e2.downloadedOrSkiped && e2.highUrl.None?
    requires listed.publishDate == "2020-02-15"
    ensures PassAsWritten(PassState([Show(ShowInfo("100", [e1, e2], folder))], [], 0, false),
                          [Show(ShowInfo("100", [listed], None))], oracle, n) ==
              PassState([Show(ShowInfo("100", [e1.(downloadedOrSkiped := true), e2], folder))],
                        [Download(e1.highUrl.value, DownloadFilename(e1.highUrl.value, e1.videoName, folder))],
                        1, true)
  {
    var st := PassState([Show(ShowInfo("100", [e1, e2], folder))], [], 0, false);
    ScenarioLatest(e1, e2, listed);
    LexLessIrreflexive("2020-02-15");
    assert FindShow(st.shows, "100") == Some(0);
    ProcessRemoteAsWrittenWithoutSync(st, Show(ShowInfo("100", [listed], None)), 0, oracle, n);
    ScenarioFirstRun(e1, e2, folder);
  }

  /** The scenario's later runs as written, from the store the first one saved. */
  lemma ScenarioRerunAsWritten(e1: EpisodeInfo, e2: EpisodeInfo, folder: Option<string>, listed: EpisodeInfo,
                               oracle: PageOracle, n: nat)
    requires forall id :: Ends(oracle, id, 0, n)
    requires e1.publishDate == "2020-01-01" && e1.downloadedOrSkiped
    requires e2.publishDate == "2020-02-15" && !e2.downloadedOrSkiped && e2.highUrl.None?
    requires listed.publishDate == "2020-02-15"
    ensures var saved := [Show(ShowInfo("100", [e1, e2], folder))];
            PassAsWritten(PassState(saved, [], 0, false), [Show(ShowInfo("100", [listed], None))], oracle, n) ==
              PassState(saved, [], 0, true)
  {
    var st := PassState([Show(ShowInfo("100", [e1, e2], folder))], [], 0, false);
    ScenarioLatest(e1, e2, listed);
    LexLessIrreflexive("2020-02-15");
    assert FindShow(st.shows, "100") == Some(0);
    ProcessRemoteAsWrittenWithoutSync(st, Show(ShowInfo("100", [listed], None)), 0, oracle, n);
    ScenarioRerun(e1, e2, folder);
  }

  /** The inner loop of the scenario's later runs: nothing is asked for. */
  lemma ScenarioRerun(e1: EpisodeInfo, e2: EpisodeInfo, folder: Option<string>)
    requires e1.downloadedOrSkiped && Stuck(e2)
    ensures var st := PassState([Show(ShowInfo("100", [e1, e2], folder))], [], 0, false);
            FlushAsWritten(st, 0) == st.(crashed := true)
  {
    var st := PassState([Show(ShowInfo("100", [e1, e2], folder))], [], 0, false);
    FirstStuckIs([e1, e2], 1);
    FlushAsWrittenStuckAgain(st, 0);
  }

  /** The scenario's run with the None check taking effect. */
  lemma ScenarioPassCorrected(e1: EpisodeInfo, e2: EpisodeInfo, folder: Option<string>, listed: EpisodeInfo,
                              oracle: PageOracle, n: nat)
    requires forall id :: Ends(oracle, id, 0, n)
    requires e1.publishDate == "2020-01-01" && !e1.downloadedOrSkiped && e1.highUrl.Some?
    requires e2.publishDate == "2020-02-15" && !e2.downloadedOrSkiped && e2.highUrl.None?
    requires listed.publishDate == "2020-02-15"
    ensures Pass(PassState([Show(ShowInfo("100", [e1, e2], folder))], [], 0, false),
                 [Show(ShowInfo("100", [listed], None))], oracle, n) ==
              PassState([Show(ShowInfo("100", [e1.(downloadedOrSkiped := true), e2.(downloadedOrSkiped := true)], folder))],
                        [Download(e1.highUrl.value, DownloadFilename(e1.highUrl.value, e1.videoName, folder))],
                        2, false)
  {
    var st := PassState([Show(ShowInfo("100", [e1, e2], folder))], [], 0, false);
    ScenarioLatest(e1, e2, listed);
    LexLessIrreflexive("2020-02-15");
    assert FindShow(st.shows, "100") == Some(0);
    ProcessRemoteWithoutSync(st, Show(ShowInfo("100", [listed], None)), 0, oracle, n);
    ScenarioCorrectedRun(e1, e2, folder);
  }
}
