/** The download pass (`download_subscriptions`) and the filename building
    at the top of `prepare_and_download`. */
module Downloader {
  import opened Wrappers
  import opened Text
  import opened Records
  import opened Json
  import opened Store
  import opened Remote
  import opened Sync

  /** The episode name with spaces turned into `_`, slashes into `-` and
      colons dropped, so it holds none of the three. */
  function SanitizeName(name: string): (r: string)
    ensures ' ' !in r && '/' !in r && ':' !in r
  {
    var spaced := Replace(name, ' ', "_");
    var slashed := Replace(spaced, '/', "-");
    ReplaceKeepsAbsent(spaced, '/', "-", ' ');
    ReplaceKeepsAbsent(slashed, ':', "", ' ');
    ReplaceKeepsAbsent(slashed, ':', "", '/');
    Replace(slashed, ':', "")
  }

  /** A name already free of spaces, slashes and colons is kept as it is. */
  lemma CleanNameKept(name: string)
    requires ' ' !in name && '/' !in name && ':' !in name
    ensures SanitizeName(name) == name
  {
    ReplaceAbsent(name, ' ', "_");
    ReplaceAbsent(name, '/', "-");
    ReplaceAbsent(name, ':', "");
  }

  /** Sanitising works character by character: the name of two parts is
      the two sanitised parts, so every other character is kept in order. */
  lemma SanitizeNameAppend(a: string, b: string)
    ensures SanitizeName(a + b) == SanitizeName(a) + SanitizeName(b)
  {
    ReplaceAppend(a, b, ' ', "_");
    ReplaceAppend(Replace(a, ' ', "_"), Replace(b, ' ', "_"), '/', "-");
    ReplaceAppend(Replace(Replace(a, ' ', "_"), '/', "-"), Replace(Replace(b, ' ', "_"), '/', "-"), ':', "");
  }

  /** The directory part of a download's file name: the folder and a slash, or nothing. */
  function FolderPrefix(folder: Option<string>): string
  {
    if folder.Some? then folder.value + "/" else ""
  }

  /** The file name `prepare_and_download` builds: the sanitised name, a dot
      and the URL's extension (the text after its last dot), under the
      output folder when there is one. */
  function DownloadFilename(url: string, name: string, folder: Option<string>): string
  {
    FolderPrefix(folder) + (SanitizeName(name) + ("." + LastSegment(url, '.')))
  }

  /** A name built as directory, stem, dot and extension gives each part back. */
  lemma LayoutParts(f: string, dir: string, stem: string, ext: string)
    requires f == dir + (stem + ("." + ext))
    ensures |f| == |dir| + |stem| + 1 + |ext|
    ensures f[..|dir|] == dir
    ensures f[|dir|..|f| - |ext| - 1] == stem
    ensures f[|f| - |ext| - 1..] == "." + ext
  {
    assert forall i :: 0 <= i < |dir| ==> f[..|dir|][i] == dir[i];
    assert forall i :: 0 <= i < |stem| ==> f[|dir|..|f| - |ext| - 1][i] == stem[i];
    assert forall i :: 0 <= i < 1 + |ext| ==> f[|f| - |ext| - 1..][i] == ("." + ext)[i];
  }

  /** A file name is the folder prefix, a stem without spaces, slashes or
      colons, a dot, and the URL's extension, which holds no dot. */
  lemma FilenameLayout(url: string, name: string, folder: Option<string>)
    ensures var f := DownloadFilename(url, name, folder);
            var ext := LastSegment(url, '.');
            var dir := FolderPrefix(folder);
            && |dir| + |ext| + 1 <= |f|
            && f[..|dir|] == dir
            && f[|f| - |ext| - 1..] == "." + ext
            && '.' !in ext
            && var stem := f[|dir|..|f| - |ext| - 1];
               ' ' !in stem && '/' !in stem && ':' !in stem
  {
    var dir, stem, ext := FolderPrefix(folder), SanitizeName(name), LastSegment(url, '.');
    var f := DownloadFilename(url, name, folder);
    assert f == dir + (stem + ("." + ext));
    LayoutParts(f, dir, stem, ext);
    assert ' ' !in stem && '/' !in stem && ':' !in stem;
  }

  /** What one call of `prepare_and_download` does: a transfer is asked of
      the download collaborator, nothing is asked (no URL), or it raises. */
  datatype DownloadStep = Requested(download: Download) | NoUrl | Raised

  /** `prepare_and_download` as written: `url.split(".")` runs before
      `download_video` can reject a None URL, so a None URL raises. */
  function PrepareAndDownloadAsWritten(url: Option<string>, name: string, folder: Option<string>): (r: DownloadStep)
    ensures r == Raised <==> url.None?
    ensures r != NoUrl
    ensures r.Requested? ==> r.download.url == url.value
  {
    match url
    case None => Raised
    case Some(u) => Requested(Download(u, DownloadFilename(u, name, folder)))
  }

  /** `prepare_and_download` with the None check of `download_video` taking
      effect: no URL means no transfer and no exception. */
  function PrepareAndDownloadStep(url: Option<string>, name: string, folder: Option<string>): (r: DownloadStep)
    ensures r != Raised
    ensures r.Requested? <==> url.Some?
    ensures url.Some? ==> r == PrepareAndDownloadAsWritten(url, name, folder) && r.download.url == url.value
  {
    match url
    case None => NoUrl
    case Some(u) => Requested(Download(u, DownloadFilename(u, name, folder)))
  }

  /** An episode without a high-quality URL stops the pass as written, but
      is only passed over once the None check takes effect. */
  lemma NoneUrlRaisesAsWritten(name: string, folder: Option<string>)
    ensures PrepareAndDownloadAsWritten(None, name, folder) == Raised
    ensures PrepareAndDownloadStep(None, name, folder) == NoUrl
  {
  }

  /** The transfers one call of `prepare_and_download` asks for: one, or none without a URL. */
  function StepDownloads(url: Option<string>, name: string, folder: Option<string>): seq<Download>
  {
    match PrepareAndDownloadStep(url, name, folder)
    case Requested(d) => [d]
    case _ => []
  }

  /** The transfers one pending episode leads to: its high-quality URL
      into the show's folder, if it has that URL. */
  function EpisodeDownloads(e: EpisodeInfo, folder: Option<string>): seq<Download>
  {
    StepDownloads(e.highUrl, e.videoName, folder)
  }

  /** `prepare_and_download(url, name, folder)` followed by `download_video`. */
  method PrepareAndDownload(env: Environment, url: Option<string>, name: string, folder: Option<string>)
    modifies env`downloads
    ensures env.downloads == old(env.downloads) + StepDownloads(url, name, folder)
  {
    if url == None {
      return;
    }
    var filename := Replace(name, ' ', "_");
    filename := Replace(filename, '/', "-");
    filename := Replace(filename, ':', "");
    assert filename == SanitizeName(name);
    filename := filename + ("." + LastSegment(url.value, '.'));
    if folder != None {
      filename := folder.value + "/" + filename;
    } else {
      assert "" + filename == filename;
    }
    assert filename == DownloadFilename(url.value, name, folder);
    env.downloads := env.downloads + [Download(url.value, filename)];
  }

  /** Every episode flagged as downloaded or skipped, nothing else changed. */
  function MarkAll(eps: seq<EpisodeInfo>): (r: seq<EpisodeInfo>)
    ensures |r| == |eps|
    ensures forall i :: 0 <= i < |eps| ==> r[i] == eps[i].(downloadedOrSkiped := true)
  {
    seq(|eps|, i requires 0 <= i < |eps| => eps[i].(downloadedOrSkiped := true))
  }

  /** The transfers for the episodes not yet processed, in episode order. */
  function PendingDownloads(eps: seq<EpisodeInfo>, folder: Option<string>): seq<Download>
  {
    if eps == [] then []
    else
      var last := eps[|eps| - 1];
      PendingDownloads(eps[..|eps| - 1], folder) + if last.downloadedOrSkiped then [] else EpisodeDownloads(last, folder)
  }

  /** How many episodes are not yet processed: one save follows each. */
  function PendingCount(eps: seq<EpisodeInfo>): nat
  {
    if eps == [] then 0
    else PendingCount(eps[..|eps| - 1]) + if eps[|eps| - 1].downloadedOrSkiped then 0 else 1
  }

  /** The state a pass has reached: the store, the transfers asked for, the
      number of saves, and whether it stopped on an exception. */
  datatype PassState = PassState(shows: seq<Show>, downloads: seq<Download>, saves: nat, crashed: bool)

  /** The inner loop for the store's show `k`: each pending episode is
      downloaded, flagged and saved, in order. */
  function Flush(st: PassState, k: nat): PassState
    requires k < |st.shows|
  {
    var info := st.shows[k].show;
    PassState(st.shows[k := Show(info.(episodes := MarkAll(info.episodes)))],
              st.downloads + PendingDownloads(info.episodes, info.downloadFolder),
              st.saves + PendingCount(info.episodes),
              st.crashed)
  }

  /** One iteration of the outer loop, for one show of the remote list:
      nothing unless the store has the id; then a sync and a save when the
      local latest date is before the remote one, then the inner loop. */
  ghost function ProcessRemote(st: PassState, r: Show, oracle: PageOracle, n: nat): PassState
    requires !st.crashed
    requires forall id :: Ends(oracle, id, 0, n)
  {
    match FindShow(st.shows, r.show.showId)
    case None => st
    case Some(k) =>
      if LexLess(LatestDate(st.shows[k].show.episodes), LatestDate(r.show.episodes)) then
        match EpisodeData(oracle, st.shows[k].show.showId, 0, true, n)
        case None => st.(crashed := true)
        case Some(fetched) =>
          Flush(st.(shows := st.shows[k := Synced(st.shows[k], fetched)], saves := st.saves + 1), k)
      else
        Flush(st, k)
  }

  /** The outer loop over the remote show list, stopping at an exception. */
  ghost function Pass(st: PassState, remote: seq<Show>, oracle: PageOracle, n: nat): PassState
    requires forall id :: Ends(oracle, id, 0, n)
    decreases |remote|
  {
    if remote == [] || st.crashed then st
    else Pass(ProcessRemote(st, remote[0], oracle, n), remote[1..], oracle, n)
  }

  /** The outer loop from remote show `i` on is that show's step followed
      by the loop from `i + 1`, and ends at once after an exception. */
  lemma PassUnfold(st: PassState, remote: seq<Show>, i: nat, oracle: PageOracle, n: nat)
    requires forall id :: Ends(oracle, id, 0, n)
    requires !st.crashed && i < |remote|
    ensures var next := ProcessRemote(st, remote[i], oracle, n);
            && Pass(st, remote[i..], oracle, n) == Pass(next, remote[i + 1..], oracle, n)
            && (next.crashed ==> Pass(next, remote[i + 1..], oracle, n) == next)
  {
    assert remote[i..][0] == remote[i] && remote[i..][1..] == remote[i + 1..];
  }

  /** Flagging one more episode extends the marked prefix by one. */
  lemma MarkStep(eps: seq<EpisodeInfo>, j: nat)
    requires j < |eps|
    ensures MarkAll(eps[..j + 1]) + eps[j + 1..] == (MarkAll(eps[..j]) + eps[j..])[j := eps[j].(downloadedOrSkiped := true)]
  {
    var lhs := MarkAll(eps[..j + 1]) + eps[j + 1..];
    var rhs := (MarkAll(eps[..j]) + eps[j..])[j := eps[j].(downloadedOrSkiped := true)];
    assert |lhs| == |rhs|;
    forall i | 0 <= i < |lhs|
      ensures lhs[i] == rhs[i]
    {
      if i < j {
        assert lhs[i] == MarkAll(eps[..j + 1])[i];
      } else if i > j {
        assert lhs[i] == eps[i];
      }
    }
  }

  /** The pending transfers and saves of one more episode. */
  lemma PendingStep(eps: seq<EpisodeInfo>, j: nat, folder: Option<string>)
    requires j < |eps|
    ensures PendingDownloads(eps[..j + 1], folder) ==
              PendingDownloads(eps[..j], folder) + if eps[j].downloadedOrSkiped then [] else EpisodeDownloads(eps[j], folder)
    ensures PendingCount(eps[..j + 1]) == PendingCount(eps[..j]) + if eps[j].downloadedOrSkiped then 0 else 1
  {
    assert eps[..j + 1][..j] == eps[..j];
  }

  /** With nothing pending, every episode is already flagged and marking changes nothing. */
  lemma {:induction false} NoPendingAllMarked(eps: seq<EpisodeInfo>)
    requires PendingCount(eps) == 0
    ensures forall i :: 0 <= i < |eps| ==> eps[i].downloadedOrSkiped
    ensures MarkAll(eps) == eps
  {
    if eps != [] {
      NoPendingAllMarked(eps[..|eps| - 1]);
      assert forall i :: 0 <= i < |eps| - 1 ==> eps[..|eps| - 1][i] == eps[i];
    }
    assert forall i :: 0 <= i < |eps| ==> MarkAll(eps)[i] == eps[i];
  }

  /** The loop body for a pending episode `j` of the store's show `k`:
      download it, flag it, save the store. */
  method DownloadPendingEpisode(env: Environment, shows: Shows, k: nat, info: ShowInfo,
                                current: seq<EpisodeInfo>, j: nat)
    returns (next: seq<EpisodeInfo>)
    requires k < |shows.shows| && j < |current|
    requires shows.shows[k].show == info.(episodes := current)
    modifies env, shows
    ensures next == current[j := current[j].(downloadedOrSkiped := true)]
    ensures shows.shows == old(shows.shows)[k := Show(info.(episodes := next))]
    ensures env.downloads == old(env.downloads) + EpisodeDownloads(current[j], info.downloadFolder)
    ensures env.saves == old(env.saves) + 1
    ensures env.document == Some(ShowsToJson(shows.shows))
  {
    var episode := current[j];
    PrepareAndDownload(env, episode.highUrl, episode.videoName, info.downloadFolder);
    next := current[j := episode.(downloadedOrSkiped := true)];
    shows.shows := shows.shows[k := Show(info.(episodes := next))];
    SaveShowData(env, shows);
  }

  /** The inner loop of `download_subscriptions` for the store's show `k`. */
  method DownloadShowEpisodes(env: Environment, shows: Shows, k: nat)
    requires k < |shows.shows|
    modifies env, shows
    ensures var info := old(shows.shows[k].show);
            && shows.shows == old(shows.shows)[k := Show(info.(episodes := MarkAll(info.episodes)))]
            && env.downloads == old(env.downloads) + PendingDownloads(info.episodes, info.downloadFolder)
            && env.saves == old(env.saves) + PendingCount(info.episodes)
            && env.document == if PendingCount(info.episodes) == 0 then old(env.document)
                               else Some(ShowsToJson(shows.shows))
  {
    var info := shows.shows[k].show;
    var eps := info.episodes;
    ghost var base := shows.shows;
    var current := eps;
    var j := 0;
    assert MarkAll(eps[..0]) + eps[0..] == eps;
    assert base[k := Show(info.(episodes := eps))] == base;
    while j < |eps|
      invariant 0 <= j <= |eps|
      invariant current == MarkAll(eps[..j]) + eps[j..]
      invariant shows.shows == base[k := Show(info.(episodes := current))]
      invariant env.downloads == old(env.downloads) + PendingDownloads(eps[..j], info.downloadFolder)
      invariant env.saves == old(env.saves) + PendingCount(eps[..j])
      invariant env.document == if PendingCount(eps[..j]) == 0 then old(env.document)
                                else Some(ShowsToJson(shows.shows))
    {
      PendingStep(eps, j, info.downloadFolder);
      MarkStep(eps, j);
      var episode := eps[j];
      assert current[j] == episode;
      if !episode.downloadedOrSkiped {
        current := DownloadPendingEpisode(env, shows, k, info, current, j);
      } else {
        assert episode.(downloadedOrSkiped := true) == episode;
        assert current[j := episode] == current;
      }
      j := j + 1;
    }
    assert eps[..j] == eps && eps[j..] == [];
    assert MarkAll(eps) + [] == MarkAll(eps);
  }

  /** The environment and the in-memory store are what the pass state
      says, counted from the moment the pass began: the document holds the
      store as of the last save. */
  ghost predicate Mirrors(env: Environment, shows: Shows, st: PassState,
                          downloads0: seq<Download>, saves0: nat, document0: Option<JValue>)
    reads env, shows
  {
    && shows.shows == st.shows
    && env.downloads == downloads0 + st.downloads
    && env.saves == saves0 + st.saves
    && env.document == if st.saves == 0 then document0 else Some(ShowsToJson(st.shows))
  }

  /** The inner loop seen from the pass: it moves the state to `Flush(st, k)`. */
  method FlushShow(env: Environment, shows: Shows, k: nat, ghost st: PassState,
                   ghost downloads0: seq<Download>, ghost saves0: nat, ghost document0: Option<JValue>)
    requires k < |st.shows|
    requires Mirrors(env, shows, st, downloads0, saves0, document0)
    modifies env, shows
    ensures Mirrors(env, shows, Flush(st, k), downloads0, saves0, document0)
  {
    ghost var eps := st.shows[k].show.episodes;
    if PendingCount(eps) == 0 {
      NoPendingAllMarked(eps);
      assert Flush(st, k).shows == st.shows;
    }
    DownloadShowEpisodes(env, shows, k);
  }

  /** One iteration of the outer loop of `download_subscriptions`; false
      where the history fetch fails and the source raises. */
  method ProcessRemoteShow(env: Environment, shows: Shows, r: Show, oracle: PageOracle, ghost n: nat,
                           ghost st: PassState, ghost downloads0: seq<Download>, ghost saves0: nat,
                           ghost document0: Option<JValue>)
    returns (ok: bool)
    requires !st.crashed
    requires forall id :: Ends(oracle, id, 0, n)
    requires Mirrors(env, shows, st, downloads0, saves0, document0)
    modifies env, shows
    ensures ok == !ProcessRemote(st, r, oracle, n).crashed
    ensures Mirrors(env, shows, ProcessRemote(st, r, oracle, n), downloads0, saves0, document0)
  {
    var v := shows.ContainsShowId(r.show.showId);
    if v == None {
      assert ProcessRemote(st, r, oracle, n) == st;
      return true;
    }
    var k := v.value;
    ghost var synced := st;
    var localLatest := GetLatestDate(shows.shows[k].show);
    var remoteLatest := GetLatestDate(r.show);
    if LexLess(localLatest, remoteLatest) {
      ghost var fetched := EpisodeData(oracle, st.shows[k].show.showId, 0, true, n);
      ok := GetNewEpisodes(shows, k, oracle, n);
      if !ok {
        assert fetched.None?;
        assert ProcessRemote(st, r, oracle, n) == st.(crashed := true);
        return false;
      }
      SaveShowData(env, shows);
      synced := st.(shows := st.shows[k := Synced(st.shows[k], fetched.value)], saves := st.saves + 1);
      assert ProcessRemote(st, r, oracle, n) == Flush(synced, k);
    } else {
      assert ProcessRemote(st, r, oracle, n) == Flush(st, k);
    }
    assert Mirrors(env, shows, synced, downloads0, saves0, document0);
    FlushShow(env, shows, k, synced, downloads0, saves0, document0);
    ok := true;
  }

  datatype PassOutcome =
    | NoSubscriptions   // returns 1: the loaded store is empty
    | ShowListFailed    // the show list could not be fetched or built; the source raises
    | SyncFailed        // a show's history could not be fetched; the source raises
    | Completed         // returns None

  /** `download_subscriptions`: load the store, fetch the show list, and run
      the outer loop over the remote shows (`Pass`). Every change to the
      store is saved before the next step, so whenever the pass stops the
      document holds the store as it then is. */
  method DownloadSubscriptions(env: Environment, oracle: PageOracle, showList: Option<seq<VideoShow>>, ghost n: nat)
    returns (outcome: PassOutcome)
    requires forall id :: Ends(oracle, id, 0, n)
    modifies env
    ensures outcome == NoSubscriptions <==> |Loaded(old(env.document))| == 0
    ensures outcome == NoSubscriptions || outcome == ShowListFailed ==>
              env.document == old(env.document) && env.saves == old(env.saves) && env.downloads == old(env.downloads)
    ensures outcome == ShowListFailed <==>
              |Loaded(old(env.document))| > 0 && (showList.None? || RemoteShows(showList.value).None?)
    ensures outcome == SyncFailed || outcome == Completed ==>
              showList.Some? && RemoteShows(showList.value).Some? &&
              var final := Pass(PassState(Loaded(old(env.document)), [], 0, false), RemoteShows(showList.value).value, oracle, n);
              && outcome == (if final.crashed then SyncFailed else Completed)
              && env.downloads == old(env.downloads) + final.downloads
              && env.saves == old(env.saves) + final.saves
              && env.document == if final.saves == 0 then old(env.document) else Some(ShowsToJson(final.shows))
  {
    var shows := LoadShows(env);
    if !(|shows.shows| > 0) {
      return NoSubscriptions;
    }
    if showList.None? {
      return ShowListFailed;
    }
    var current := RemoteShows(showList.value);
    if current.None? {
      return ShowListFailed;
    }
    var remote := current.value;
    ghost var start := PassState(shows.shows, [], 0, false);
    ghost var st := start;
    ghost var downloads0, saves0, document0 := env.downloads, env.saves, env.document;
    var i := 0;
    while i < |remote|
      invariant 0 <= i <= |remote|
      invariant !st.crashed
      invariant Pass(st, remote[i..], oracle, n) == Pass(start, remote, oracle, n)
      invariant Mirrors(env, shows, st, downloads0, saves0, document0)
    {
      PassUnfold(st, remote, i, oracle, n);
      var ok := ProcessRemoteShow(env, shows, remote[i], oracle, n, st, downloads0, saves0, document0);
      st := ProcessRemote(st, remote[i], oracle, n);
      if !ok {
        return SyncFailed;
      }
      i := i + 1;
    }
    assert remote[i..] == [];
    return Completed;
  }
}
