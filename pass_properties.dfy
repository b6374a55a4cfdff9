/** What a run of `download_subscriptions` guarantees about the store:
    shows only grow and flags only go from False to True, every show the
    remote list names ends fully processed, the others are left alone, and
    a second run with the same remote data downloads nothing. */
module PassProperties {
  import opened Wrappers
  import opened Text
  import opened Records
  import opened Json
  import opened Store
  import opened Remote
  import opened Sync
  import opened Downloader

  /** Every episode of the show is downloaded or skipped. */
  predicate Processed(s: Show)
  {
    forall i :: 0 <= i < |s.show.episodes| ==> s.show.episodes[i].downloadedOrSkiped
  }

  /** `b` is `a` grown the way a pass grows a show: the same id and folder,
      the old episodes kept in place with at most their flag set, new
      episodes after them. */
  predicate ShowExtends(a: Show, b: Show)
  {
    && b.show.showId == a.show.showId
    && b.show.downloadFolder == a.show.downloadFolder
    && |a.show.episodes| <= |b.show.episodes|
    && forall i :: 0 <= i < |a.show.episodes| ==>
         && b.show.episodes[i] == a.show.episodes[i].(downloadedOrSkiped := b.show.episodes[i].downloadedOrSkiped)
         && (a.show.episodes[i].downloadedOrSkiped ==> b.show.episodes[i].downloadedOrSkiped)
  }

  /** The same shows in the same order, each grown as above. */
  predicate StoreExtends(a: seq<Show>, b: seq<Show>)
  {
    |a| == |b| && forall k :: 0 <= k < |a| ==> ShowExtends(a[k], b[k])
  }

  lemma StoreExtendsTransitive(a: seq<Show>, b: seq<Show>, c: seq<Show>)
    requires StoreExtends(a, b) && StoreExtends(b, c)
    ensures StoreExtends(a, c)
  {
    forall k | 0 <= k < |a|
      ensures ShowExtends(a[k], c[k])
    {
      var ea, eb, ec := a[k].show.episodes, b[k].show.episodes, c[k].show.episodes;
      assert forall i :: 0 <= i < |ea| ==> ec[i] == eb[i].(downloadedOrSkiped := ec[i].downloadedOrSkiped);
    }
  }

  /** Only ids matter to the lookup, and a grown store keeps them. */
  lemma {:induction false} FindShowAfterExtends(a: seq<Show>, b: seq<Show>, showId: string)
    requires StoreExtends(a, b)
    ensures FindShow(b, showId) == FindShow(a, showId)
    decreases |a|
  {
    if a != [] {
      assert ShowExtends(a[0], b[0]);
      FindShowAfterExtends(a[1..], b[1..], showId);
    }
  }

  /** The dates, and so the latest date, do not depend on the flags. */
  lemma {:induction false} LatestDateIgnoresFlags(eps: seq<EpisodeInfo>)
    ensures LatestDate(MarkAll(eps)) == LatestDate(eps)
  {
    if eps != [] {
      var init := eps[..|eps| - 1];
      assert MarkAll(eps)[..|eps| - 1] == MarkAll(init);
      LatestDateIgnoresFlags(init);
    }
  }

  /** Each transfer of the inner loop comes with a save: there are at most
      as many transfers as pending episodes. */
  lemma {:induction false} DownloadsAtMostPending(eps: seq<EpisodeInfo>, folder: Option<string>)
    ensures |PendingDownloads(eps, folder)| <= PendingCount(eps)
  {
    if eps != [] {
      DownloadsAtMostPending(eps[..|eps| - 1], folder);
    }
  }

  /** A processed show has nothing pending. */
  lemma {:induction false} ProcessedHasNoPending(s: Show)
    requires Processed(s)
    ensures PendingCount(s.show.episodes) == 0
    decreases |s.show.episodes|
  {
    var eps := s.show.episodes;
    if eps != [] {
      var init := eps[..|eps| - 1];
      assert forall i :: 0 <= i < |init| ==> init[i] == eps[i];
      ProcessedHasNoPending(Show(s.show.(episodes := init)));
    }
  }

  /** Flagging every episode of a show grows it and processes it. */
  lemma MarkAllExtends(s: Show)
    ensures var m := Show(s.show.(episodes := MarkAll(s.show.episodes)));
            ShowExtends(s, m) && Processed(m)
  {
  }

  /** The inner loop processes show `k`, grows it only by flags, and leaves
      every other show alone. */
  lemma FlushShape(st: PassState, k: nat)
    requires k < |st.shows|
    ensures var next := Flush(st, k);
            && StoreExtends(st.shows, next.shows)
            && Processed(next.shows[k])
            && LatestDate(next.shows[k].show.episodes) == LatestDate(st.shows[k].show.episodes)
            && (forall m :: 0 <= m < |st.shows| && m != k ==> next.shows[m] == st.shows[m])
            && st.downloads <= next.downloads
            && |next.downloads| - |st.downloads| <= next.saves - st.saves
            && (next.saves == st.saves ==> next.shows == st.shows && next.downloads == st.downloads)
  {
    var info := st.shows[k].show;
    var marked := Show(info.(episodes := MarkAll(info.episodes)));
    var next := Flush(st, k);
    assert next.shows == st.shows[k := marked];
    MarkAllExtends(st.shows[k]);
    assert forall m :: 0 <= m < |st.shows| && m != k ==> next.shows[m] == st.shows[m];
    assert StoreExtends(st.shows, next.shows);
    LatestDateIgnoresFlags(info.episodes);
    DownloadsAtMostPending(info.episodes, info.downloadFolder);
    if PendingCount(info.episodes) == 0 {
      NoPendingAllMarked(info.episodes);
      assert marked == st.shows[k];
      assert st.shows[k := marked] == st.shows;
    }
  }

  /** A sync grows the show and does not lower its latest date. */
  lemma SyncedShape(s: Show, fetched: seq<EpisodeInfo>)
    ensures ShowExtends(s, Synced(s, fetched))
    ensures !LexLess(LatestDate(Synced(s, fetched).show.episodes), LatestDate(s.show.episodes))
  {
    SyncOnlyAddsNewer(s, fetched);
    LatestDateOfAppend(s.show.episodes, Newer(fetched, LatestDate(s.show.episodes)));
  }

  /** One remote show: the store only grows; transfers only accumulate,
      each with a save; a step without a save changes nothing; and an
      exception leaves the state as it was. */
  lemma ProcessRemoteGrows(st: PassState, r: Show, oracle: PageOracle, n: nat)
    requires !st.crashed
    requires forall id :: Ends(oracle, id, 0, n)
    ensures var next := ProcessRemote(st, r, oracle, n);
            && StoreExtends(st.shows, next.shows)
            && st.downloads <= next.downloads
            && |next.downloads| - |st.downloads| <= next.saves - st.saves
            && (next.saves == st.saves ==> next.shows == st.shows && next.downloads == st.downloads)
            && (next.crashed ==> next == st.(crashed := true))
  {
    assert StoreExtends(st.shows, st.shows);
    match FindShow(st.shows, r.show.showId)
    case None =>
    case Some(k) =>
      if LexLess(LatestDate(st.shows[k].show.episodes), LatestDate(r.show.episodes)) {
        match EpisodeData(oracle, st.shows[k].show.showId, 0, true, n)
        case None =>
        case Some(fetched) =>
          var synced := st.(shows := st.shows[k := Synced(st.shows[k], fetched)], saves := st.saves + 1);
          SyncedShape(st.shows[k], fetched);
          assert StoreExtends(st.shows, synced.shows);
          FlushShape(synced, k);
          StoreExtendsTransitive(st.shows, synced.shows, Flush(synced, k).shows);
      } else {
        FlushShape(st, k);
      }
  }

  /** A sync of show `k` followed by the inner loop leaves the other shows
      alone and processes show `k` without lowering its latest date. */
  lemma SyncThenFlushShape(st: PassState, k: nat, fetched: seq<EpisodeInfo>)
    requires k < |st.shows|
    ensures var synced := st.(shows := st.shows[k := Synced(st.shows[k], fetched)], saves := st.saves + 1);
            var next := Flush(synced, k);
            && |next.shows| == |st.shows|
            && (forall m :: 0 <= m < |st.shows| && m != k ==> next.shows[m] == st.shows[m])
            && Processed(next.shows[k])
            && !LexLess(LatestDate(next.shows[k].show.episodes), LatestDate(st.shows[k].show.episodes))
  {
    var synced := st.(shows := st.shows[k := Synced(st.shows[k], fetched)], saves := st.saves + 1);
    SyncedShape(st.shows[k], fetched);
    FlushShape(synced, k);
  }

  /** One remote show touches at most the store's show with its id, which
      ends processed and with a latest date no earlier than before. */
  lemma ProcessRemoteTouchesOne(st: PassState, r: Show, oracle: PageOracle, n: nat)
    requires !st.crashed
    requires forall id :: Ends(oracle, id, 0, n)
    ensures var next := ProcessRemote(st, r, oracle, n);
            var k := FindShow(st.shows, r.show.showId);
            && |next.shows| == |st.shows|
            && (forall m :: 0 <= m < |st.shows| && k != Some(m) ==> next.shows[m] == st.shows[m])
            && (!next.crashed && k.Some? ==> Processed(next.shows[k.value]))
            && (k.Some? ==> !LexLess(LatestDate(next.shows[k.value].show.episodes),
                                     LatestDate(st.shows[k.value].show.episodes)))
  {
    match FindShow(st.shows, r.show.showId)
    case None =>
    case Some(k) =>
      var latest := LatestDate(st.shows[k].show.episodes);
      LexLessIrreflexive(latest);
      if LexLess(latest, LatestDate(r.show.episodes)) {
        match EpisodeData(oracle, st.shows[k].show.showId, 0, true, n)
        case None =>
          assert ProcessRemote(st, r, oracle, n) == st.(crashed := true);
        case Some(fetched) =>
          var synced := st.(shows := st.shows[k := Synced(st.shows[k], fetched)], saves := st.saves + 1);
          assert ProcessRemote(st, r, oracle, n) == Flush(synced, k);
          SyncThenFlushShape(st, k, fetched);
      } else {
        assert ProcessRemote(st, r, oracle, n) == Flush(st, k);
        FlushShape(st, k);
      }
  }

  /** A whole pass, from any state: the store only grows, transfers only
      accumulate and each comes with a save, and a pass without a save
      changes neither the store nor the transfers. */
  lemma {:induction false} PassGrows(st: PassState, remote: seq<Show>, oracle: PageOracle, n: nat)
    requires forall id :: Ends(oracle, id, 0, n)
    ensures var last := Pass(st, remote, oracle, n);
            && StoreExtends(st.shows, last.shows)
            && st.downloads <= last.downloads
            && |last.downloads| - |st.downloads| <= last.saves - st.saves
            && (last.saves == st.saves ==> last.shows == st.shows && last.downloads == st.downloads)
    decreases |remote|
  {
    if remote == [] || st.crashed {
      assert StoreExtends(st.shows, st.shows);
    } else {
      var next := ProcessRemote(st, remote[0], oracle, n);
      ProcessRemoteGrows(st, remote[0], oracle, n);
      PassGrows(next, remote[1..], oracle, n);
      StoreExtendsTransitive(st.shows, next.shows, Pass(next, remote[1..], oracle, n).shows);
    }
  }

  /** A processed show stays processed for the rest of the pass: a later
      step that touches it runs the inner loop over it again. */
  lemma {:induction false} PassKeepsProcessed(st: PassState, remote: seq<Show>, oracle: PageOracle, n: nat, m: nat)
    requires forall id :: Ends(oracle, id, 0, n)
    requires m < |st.shows| && Processed(st.shows[m])
    requires !Pass(st, remote, oracle, n).crashed
    ensures m < |Pass(st, remote, oracle, n).shows| && Processed(Pass(st, remote, oracle, n).shows[m])
    decreases |remote|
  {
    if remote != [] && !st.crashed {
      var next := ProcessRemote(st, remote[0], oracle, n);
      ProcessRemoteTouchesOne(st, remote[0], oracle, n);
      PassKeepsProcessed(next, remote[1..], oracle, n, m);
    }
  }

  /** After a completed pass, every show of the store that some remote
      show names has all its episodes downloaded or skipped. */
  lemma {:induction false} PassProcessesMatched(st: PassState, remote: seq<Show>, oracle: PageOracle, n: nat)
    requires forall id :: Ends(oracle, id, 0, n)
    requires !Pass(st, remote, oracle, n).crashed
    ensures var last := Pass(st, remote, oracle, n);
            forall j :: 0 <= j < |remote| && FindShow(last.shows, remote[j].show.showId).Some? ==>
              Processed(last.shows[FindShow(last.shows, remote[j].show.showId).value])
    decreases |remote|
  {
    if remote != [] {
      var last := Pass(st, remote, oracle, n);
      var next := ProcessRemote(st, remote[0], oracle, n);
      ProcessRemoteTouchesOne(st, remote[0], oracle, n);
      ProcessRemoteGrows(st, remote[0], oracle, n);
      PassGrows(next, remote[1..], oracle, n);
      PassProcessesMatched(next, remote[1..], oracle, n);
      var id := remote[0].show.showId;
      FindShowAfterExtends(st.shows, next.shows, id);
      FindShowAfterExtends(next.shows, last.shows, id);
      if FindShow(st.shows, id).Some? {
        PassKeepsProcessed(next, remote[1..], oracle, n, FindShow(st.shows, id).value);
      }
      forall j | 0 <= j < |remote| && FindShow(last.shows, remote[j].show.showId).Some?
        ensures Processed(last.shows[FindShow(last.shows, remote[j].show.showId).value])
      {
        if j > 0 {
          assert remote[j] == remote[1..][j - 1];
        }
      }
    }
  }

  /** A show of the store that no remote show names is left as it was. */
  lemma {:induction false} PassLeavesUnmatched(st: PassState, remote: seq<Show>, oracle: PageOracle, n: nat, m: nat)
    requires forall id :: Ends(oracle, id, 0, n)
    requires m < |st.shows|
    requires forall j :: 0 <= j < |remote| ==> FindShow(st.shows, remote[j].show.showId) != Some(m)
    ensures m < |Pass(st, remote, oracle, n).shows| && Pass(st, remote, oracle, n).shows[m] == st.shows[m]
    decreases |remote|
  {
    if remote != [] && !st.crashed {
      var next := ProcessRemote(st, remote[0], oracle, n);
      ProcessRemoteTouchesOne(st, remote[0], oracle, n);
      ProcessRemoteGrows(st, remote[0], oracle, n);
      forall j | 0 <= j < |remote[1..]|
        ensures FindShow(next.shows, remote[1..][j].show.showId) != Some(m)
      {
        FindShowAfterExtends(st.shows, next.shows, remote[1..][j].show.showId);
        assert remote[1..][j] == remote[j + 1];
      }
      PassLeavesUnmatched(next, remote[1..], oracle, n, m);
    }
  }

  /** The store's show for `r` (if any) needs nothing more from `r`: it is
      processed, and if `r` is dated after it, the fetched history holds
      nothing after its latest date. */
  ghost predicate SettledFor(shows: seq<Show>, r: Show, oracle: PageOracle, n: nat)
    requires forall id :: Ends(oracle, id, 0, n)
  {
    match FindShow(shows, r.show.showId)
    case None => true
    case Some(k) =>
      var latest := LatestDate(shows[k].show.episodes);
      && Processed(shows[k])
      && (LexLess(latest, LatestDate(r.show.episodes)) ==>
            var fetched := EpisodeData(oracle, shows[k].show.showId, 0, true, n);
            && fetched.Some?
            && forall i :: 0 <= i < |fetched.value| ==> !LexLess(latest, fetched.value[i].publishDate))
  }

  /** Processing `r` settles the store for `r`. */
  lemma SettledAfter(st: PassState, r: Show, oracle: PageOracle, n: nat)
    requires !st.crashed
    requires forall id :: Ends(oracle, id, 0, n)
    requires !ProcessRemote(st, r, oracle, n).crashed
    ensures SettledFor(ProcessRemote(st, r, oracle, n).shows, r, oracle, n)
  {
    var next := ProcessRemote(st, r, oracle, n);
    ProcessRemoteGrows(st, r, oracle, n);
    ProcessRemoteTouchesOne(st, r, oracle, n);
    FindShowAfterExtends(st.shows, next.shows, r.show.showId);
    match FindShow(st.shows, r.show.showId)
    case None =>
    case Some(k) =>
      var latest := LatestDate(st.shows[k].show.episodes);
      if LexLess(latest, LatestDate(r.show.episodes)) {
        var fetched := EpisodeData(oracle, st.shows[k].show.showId, 0, true, n).value;
        var synced := st.(shows := st.shows[k := Synced(st.shows[k], fetched)], saves := st.saves + 1);
        FlushShape(synced, k);
        SyncedCoversFetched(st.shows[k], fetched);
      } else {
        FlushShape(st, k);
      }
  }

  /** Once settled for `r0`, the store stays settled for it through any
      later step: the show's latest date can only rise. */
  lemma SettledForKept(st: PassState, r: Show, r0: Show, oracle: PageOracle, n: nat)
    requires !st.crashed
    requires forall id :: Ends(oracle, id, 0, n)
    requires SettledFor(st.shows, r0, oracle, n)
    requires !ProcessRemote(st, r, oracle, n).crashed
    ensures SettledFor(ProcessRemote(st, r, oracle, n).shows, r0, oracle, n)
  {
    var next := ProcessRemote(st, r, oracle, n);
    ProcessRemoteGrows(st, r, oracle, n);
    ProcessRemoteTouchesOne(st, r, oracle, n);
    FindShowAfterExtends(st.shows, next.shows, r0.show.showId);
    match FindShow(st.shows, r0.show.showId)
    case None =>
    case Some(k0) =>
      if FindShow(st.shows, r.show.showId) == Some(k0) {
        assert ShowExtends(st.shows[k0], next.shows[k0]);
        var before := LatestDate(st.shows[k0].show.episodes);
        var after := LatestDate(next.shows[k0].show.episodes);
        var target := LatestDate(r0.show.episodes);
        if LexLess(before, target) {
          var fetched := EpisodeData(oracle, st.shows[k0].show.showId, 0, true, n).value;
          forall i | 0 <= i < |fetched|
            ensures !LexLess(after, fetched[i].publishDate)
          {
            NotLessTransitive(after, before, fetched[i].publishDate);
          }
        } else {
          NotLessTransitive(after, before, target);
        }
      }
  }

  /** Settledness for `r0` survives the rest of a pass. */
  lemma {:induction false} PassKeepsSettled(st: PassState, remote: seq<Show>, r0: Show, oracle: PageOracle, n: nat)
    requires forall id :: Ends(oracle, id, 0, n)
    requires SettledFor(st.shows, r0, oracle, n)
    requires !Pass(st, remote, oracle, n).crashed
    ensures SettledFor(Pass(st, remote, oracle, n).shows, r0, oracle, n)
    decreases |remote|
  {
    if remote != [] && !st.crashed {
      var next := ProcessRemote(st, remote[0], oracle, n);
      ProcessRemoteGrows(st, remote[0], oracle, n);
      SettledForKept(st, remote[0], r0, oracle, n);
      PassKeepsSettled(next, remote[1..], r0, oracle, n);
    }
  }

  /** After a completed pass the store is settled for every remote show. */
  lemma {:induction false} PassSettles(st: PassState, remote: seq<Show>, oracle: PageOracle, n: nat)
    requires forall id :: Ends(oracle, id, 0, n)
    requires !Pass(st, remote, oracle, n).crashed
    ensures forall j :: 0 <= j < |remote| ==> SettledFor(Pass(st, remote, oracle, n).shows, remote[j], oracle, n)
    decreases |remote|
  {
    if remote != [] {
      var next := ProcessRemote(st, remote[0], oracle, n);
      ProcessRemoteGrows(st, remote[0], oracle, n);
      SettledAfter(st, remote[0], oracle, n);
      PassKeepsSettled(next, remote[1..], remote[0], oracle, n);
      PassSettles(next, remote[1..], oracle, n);
      forall j | 0 <= j < |remote|
        ensures SettledFor(Pass(st, remote, oracle, n).shows, remote[j], oracle, n)
      {
        if j > 0 {
          assert remote[j] == remote[1..][j - 1];
        }
      }
    }
  }

  /** A step for a remote show the store is settled for changes neither
      the store nor the transfers (at most it saves once more). */
  lemma SettledStepIsIdle(st: PassState, r: Show, oracle: PageOracle, n: nat)
    requires !st.crashed
    requires forall id :: Ends(oracle, id, 0, n)
    requires SettledFor(st.shows, r, oracle, n)
    ensures var next := ProcessRemote(st, r, oracle, n);
            !next.crashed && next.shows == st.shows && next.downloads == st.downloads
  {
    match FindShow(st.shows, r.show.showId)
    case None =>
    case Some(k) =>
      var s := st.shows[k];
      var latest := LatestDate(s.show.episodes);
      ProcessedHasNoPending(s);
      NoPendingAllMarked(s.show.episodes);
      DownloadsAtMostPending(s.show.episodes, s.show.downloadFolder);
      if LexLess(latest, LatestDate(r.show.episodes)) {
        var fetched := EpisodeData(oracle, s.show.showId, 0, true, n).value;
        NothingNewer(fetched, latest);
        assert s.show.episodes + [] == s.show.episodes;
        assert Synced(s, fetched) == s;
        assert st.shows[k := s] == st.shows;
      }
      assert st.shows[k := Show(s.show.(episodes := s.show.episodes))] == st.shows;
  }

  /** A pass over remote shows the store is settled for is idle. */
  lemma {:induction false} SettledPassIsIdle(st: PassState, remote: seq<Show>, oracle: PageOracle, n: nat)
    requires !st.crashed
    requires forall id :: Ends(oracle, id, 0, n)
    requires forall j :: 0 <= j < |remote| ==> SettledFor(st.shows, remote[j], oracle, n)
    ensures var last := Pass(st, remote, oracle, n);
            !last.crashed && last.shows == st.shows && last.downloads == st.downloads
    decreases |remote|
  {
    if remote != [] {
      SettledStepIsIdle(st, remote[0], oracle, n);
      var next := ProcessRemote(st, remote[0], oracle, n);
      assert forall j :: 0 <= j < |remote[1..]| ==> remote[1..][j] == remote[j + 1];
      SettledPassIsIdle(next, remote[1..], oracle, n);
    }
  }

  /** Running the pass again with the same remote data, from the document
      the first run left, downloads nothing and leaves the store as the
      first run left it. */
  lemma RerunDownloadsNothing(document: Option<JValue>, remote: seq<Show>, oracle: PageOracle, n: nat)
    requires forall id :: Ends(oracle, id, 0, n)
    requires !Pass(PassState(Loaded(document), [], 0, false), remote, oracle, n).crashed
    ensures var first := Pass(PassState(Loaded(document), [], 0, false), remote, oracle, n);
            var written := if first.saves == 0 then document else Some(ShowsToJson(first.shows));
            var second := Pass(PassState(Loaded(written), [], 0, false), remote, oracle, n);
            && Loaded(written) == first.shows
            && !second.crashed && second.shows == first.shows && second.downloads == []
  {
    var start := PassState(Loaded(document), [], 0, false);
    var first := Pass(start, remote, oracle, n);
    PassGrows(start, remote, oracle, n);
    if first.saves != 0 {
      SaveThenLoad(first.shows);
    }
    PassSettles(start, remote, oracle, n);
    SettledPassIsIdle(PassState(first.shows, [], 0, false), remote, oracle, n);
  }

  /** A remote show dated no later than the store's show only runs the inner loop. */
  lemma ProcessRemoteWithoutSync(st: PassState, r: Show, k: nat, oracle: PageOracle, n: nat)
    requires !st.crashed
    requires forall id :: Ends(oracle, id, 0, n)
    requires FindShow(st.shows, r.show.showId) == Some(k)
    requires !LexLess(LatestDate(st.shows[k].show.episodes), LatestDate(r.show.episodes))
    ensures Pass(st, [r], oracle, n) == Flush(st, k)
  {
    assert [r][1..] == [];
  }

  /** A pending episode with a high-quality URL asks for one transfer of that URL. */
  lemma EpisodeDownloadsWithUrl(e: EpisodeInfo, folder: Option<string>)
    requires e.highUrl.Some?
    ensures EpisodeDownloads(e, folder) == [Download(e.highUrl.value, DownloadFilename(e.highUrl.value, e.videoName, folder))]
  {
  }

  /** The inner loop over a processed episode followed by a pending one
      with a URL asks for one transfer and saves once. */
  lemma OnePending(e1: EpisodeInfo, e2: EpisodeInfo, folder: Option<string>)
    requires e1.downloadedOrSkiped && !e2.downloadedOrSkiped && e2.highUrl.Some?
    ensures PendingDownloads([e1, e2], folder) ==
              [Download(e2.highUrl.value, DownloadFilename(e2.highUrl.value, e2.videoName, folder))]
    ensures PendingCount([e1, e2]) == 1
    ensures MarkAll([e1, e2]) == [e1, e2.(downloadedOrSkiped := true)]
  {
    var eps := [e1, e2];
    assert eps[..1] == [e1] && [e1][..0] == [];
    assert PendingDownloads([e1], folder) == [] by {
      assert PendingDownloads([e1], folder) == PendingDownloads([], folder) + [];
    }
    assert PendingCount([e1]) == 0 by {
      assert PendingCount([e1]) == PendingCount([]) + 0;
    }
    EpisodeDownloadsWithUrl(e2, folder);
    assert PendingDownloads(eps, folder) == PendingDownloads([e1], folder) + EpisodeDownloads(e2, folder);
    assert PendingCount(eps) == PendingCount([e1]) + 1;
    assert e1.(downloadedOrSkiped := true) == e1;
  }

  /** The scenario's dates: the store's latest is the newer episode's,
      and so is the show list's. */
  lemma ScenarioLatest(e1: EpisodeInfo, e2: EpisodeInfo, listed: EpisodeInfo)
    requires e1.publishDate == "2020-01-01" && e2.publishDate == "2020-02-15"
    requires listed.publishDate == "2020-02-15"
    ensures LatestDate([e1, e2]) == "2020-02-15" && LatestDate([listed]) == "2020-02-15"
  {
    ScenarioDatesOrdered();
    LexLessTransitive(Sentinel, "2020-01-01", "2020-02-15");
    assert [e1, e2][..1] == [e1] && [e1][..0] == [] && [listed][..0] == [];
    assert LatestDate([e1]) == "2020-01-01";
    assert LatestDate([e1, e2]) == Later("2020-01-01", "2020-02-15");
    assert LatestDate([listed]) == Later(Sentinel, "2020-02-15");
  }

  /** The inner loop on a store of one show, from the start of a pass. */
  lemma FlushSingle(info: ShowInfo)
    ensures Flush(PassState([Show(info)], [], 0, false), 0) ==
              PassState([Show(info.(episodes := MarkAll(info.episodes)))],
                        PendingDownloads(info.episodes, info.downloadFolder), PendingCount(info.episodes), false)
  {
    assert [] + PendingDownloads(info.episodes, info.downloadFolder) == PendingDownloads(info.episodes, info.downloadFolder);
    assert [Show(info)][0 := Show(info.(episodes := MarkAll(info.episodes)))] == [Show(info.(episodes := MarkAll(info.episodes)))];
  }

  /** Show "100" holds an old processed episode and a newer pending one
      with a high-quality URL, and the show list reports the same latest
      date: one pass asks for exactly that one transfer, flags the episode,
      saves once and syncs nothing. */
  lemma DownloadScenario(e1: EpisodeInfo, e2: EpisodeInfo, folder: Option<string>, listed: EpisodeInfo,
                         oracle: PageOracle, n: nat)
    requires forall id :: Ends(oracle, id, 0, n)
    requires e1.publishDate == "2020-01-01" && e1.downloadedOrSkiped
    requires e2.publishDate == "2020-02-15" && !e2.downloadedOrSkiped && e2.highUrl.Some?
    requires listed.publishDate == "2020-02-15"
    ensures var store := [Show(ShowInfo("100", [e1, e2], folder))];
            var remote := [Show(ShowInfo("100", [listed], None))];
            var last := Pass(PassState(store, [], 0, false), remote, oracle, n);
            && !last.crashed
            && last.downloads == [Download(e2.highUrl.value, DownloadFilename(e2.highUrl.value, e2.videoName, folder))]
            && last.saves == 1
            && last.shows == [Show(ShowInfo("100", [e1, e2.(downloadedOrSkiped := true)], folder))]
  {
    var info := ShowInfo("100", [e1, e2], folder);
    var st := PassState([Show(info)], [], 0, false);
    var r := Show(ShowInfo("100", [listed], None));
    ScenarioLatest(e1, e2, listed);
    LexLessIrreflexive("2020-02-15");
    assert FindShow(st.shows, "100") == Some(0);
    ProcessRemoteWithoutSync(st, r, 0, oracle, n);
    FlushSingle(info);
    OnePending(e1, e2, folder);
  }
}
