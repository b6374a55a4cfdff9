/** Bringing a subscribed show up to date (`get_new_episodes`) and adding a
    subscription (`subscribe`). */
module Sync {
  import opened Wrappers
  import opened Text
  import opened Records
  import opened Json
  import opened Store
  import opened Remote
  import opened Cli

  /** The episodes `get_new_episodes` appends, given the fetched history
      and the latest date known before the merge. */
  function Newer(fetched: seq<EpisodeInfo>, threshold: string): seq<EpisodeInfo>
  {
    if fetched == [] then []
    else
      var last := fetched[|fetched| - 1];
      Newer(fetched[..|fetched| - 1], threshold)
        + if LexLess(threshold, last.publishDate) then [last.(downloadedOrSkiped := false)] else []
  }

  /** What is appended is exactly the fetched episodes dated strictly after
      the threshold, each flagged as not yet downloaded. */
  lemma {:induction false} NewerSpec(fetched: seq<EpisodeInfo>, threshold: string)
    ensures forall i :: 0 <= i < |Newer(fetched, threshold)| ==>
              LexLess(threshold, Newer(fetched, threshold)[i].publishDate) &&
              !Newer(fetched, threshold)[i].downloadedOrSkiped
    ensures forall i :: 0 <= i < |fetched| && LexLess(threshold, fetched[i].publishDate) ==>
              fetched[i].(downloadedOrSkiped := false) in Newer(fetched, threshold)
    ensures forall e :: e in Newer(fetched, threshold) ==>
              exists i :: 0 <= i < |fetched| && e == fetched[i].(downloadedOrSkiped := false)
  {
    if fetched != [] {
      var init, last := fetched[..|fetched| - 1], fetched[|fetched| - 1];
      NewerSpec(init, threshold);
      var rest := Newer(init, threshold);
      var tail := if LexLess(threshold, last.publishDate) then [last.(downloadedOrSkiped := false)] else [];
      var r := Newer(fetched, threshold);
      assert r == rest + tail;
      assert forall i :: 0 <= i < |init| ==> init[i] == fetched[i];
      forall i | 0 <= i < |r|
        ensures LexLess(threshold, r[i].publishDate) && !r[i].downloadedOrSkiped
      {
        if i < |rest| { assert r[i] == rest[i]; } else { assert r[i] == tail[i - |rest|]; }
      }
      forall e | e in r
        ensures exists i :: 0 <= i < |fetched| && e == fetched[i].(downloadedOrSkiped := false)
      {
        if e in rest {
          var i :| 0 <= i < |init| && e == init[i].(downloadedOrSkiped := false);
          assert e == fetched[i].(downloadedOrSkiped := false);
        } else {
          assert e in tail;
          assert e == fetched[|fetched| - 1].(downloadedOrSkiped := false);
        }
      }
    }
  }

  /** The selection keeps the fetched order and takes each episode at most
      once: selecting from two runs of the history appends their selections. */
  lemma {:induction false} NewerAppend(a: seq<EpisodeInfo>, b: seq<EpisodeInfo>, threshold: string)
    ensures Newer(a + b, threshold) == Newer(a, threshold) + Newer(b, threshold)
    decreases |b|
  {
    if b == [] {
      assert a + b == a;
    } else {
      var init := b[..|b| - 1];
      NewerAppend(a, init, threshold);
      assert (a + b)[..|a + b| - 1] == a + init;
      assert (a + b)[|a + b| - 1] == b[|b| - 1];
    }
  }

  /** Nothing is appended when no fetched date is after the threshold. */
  lemma {:induction false} NothingNewer(fetched: seq<EpisodeInfo>, threshold: string)
    requires forall i :: 0 <= i < |fetched| ==> !LexLess(threshold, fetched[i].publishDate)
    ensures Newer(fetched, threshold) == []
  {
    if fetched != [] {
      var init := fetched[..|fetched| - 1];
      assert forall i :: 0 <= i < |init| ==> init[i] == fetched[i];
      NothingNewer(init, threshold);
    }
  }

  /** A show after the merge: its old episodes untouched, the newer fetched
      ones appended behind them. The threshold is the latest date before
      the merge, computed once. */
  function Synced(s: Show, fetched: seq<EpisodeInfo>): Show
  {
    Show(s.show.(episodes := s.show.episodes + Newer(fetched, LatestDate(s.show.episodes))))
  }

  /** After a sync no fetched episode is dated after the show's latest
      date: the appended ones raised it, and the others were not after the
      old one. */
  lemma SyncedCoversFetched(s: Show, fetched: seq<EpisodeInfo>)
    ensures forall i :: 0 <= i < |fetched| ==>
              !LexLess(LatestDate(Synced(s, fetched).show.episodes), fetched[i].publishDate)
  {
    var eps := s.show.episodes;
    var l0 := LatestDate(eps);
    var added := Newer(fetched, l0);
    NewerSpec(fetched, l0);
    var l1 := LatestDate(eps + added);
    LatestDateOfAppend(eps, added);
    forall i | 0 <= i < |fetched|
      ensures !LexLess(l1, fetched[i].publishDate)
    {
      if LexLess(l0, fetched[i].publishDate) {
        assert fetched[i].(downloadedOrSkiped := false) in added;
        var j :| 0 <= j < |added| && added[j] == fetched[i].(downloadedOrSkiped := false);
      } else {
        NotLessTransitive(l1, l0, fetched[i].publishDate);
      }
    }
  }

  /** Syncing twice with the same fetched list appends nothing the second time. */
  lemma ResyncAppendsNothing(s: Show, fetched: seq<EpisodeInfo>)
    ensures Synced(Synced(s, fetched), fetched) == Synced(s, fetched)
  {
    SyncedCoversFetched(s, fetched);
    NothingNewer(fetched, LatestDate(Synced(s, fetched).show.episodes));
    assert Synced(s, fetched).show.episodes + [] == Synced(s, fetched).show.episodes;
  }

  /** Every episode a sync appends is dated after the show's latest date
      before the sync, and is flagged for download. */
  lemma SyncOnlyAddsNewer(s: Show, fetched: seq<EpisodeInfo>)
    ensures var after := Synced(s, fetched).show.episodes;
            var before := s.show.episodes;
            && before <= after
            && forall i :: |before| <= i < |after| ==>
                 LexLess(LatestDate(before), after[i].publishDate) && !after[i].downloadedOrSkiped
  {
    var before := s.show.episodes;
    var added := Newer(fetched, LatestDate(before));
    NewerSpec(fetched, LatestDate(before));
    var after := before + added;
    forall i | |before| <= i < |after|
      ensures LexLess(LatestDate(before), after[i].publishDate) && !after[i].downloadedOrSkiped
    {
      assert after[i] == added[i - |before|];
    }
  }

  /** One more fetched episode appends itself, flagged for download, when
      it is newer than the threshold, and nothing otherwise. */
  lemma NewerStep(fetched: seq<EpisodeInfo>, i: nat, threshold: string)
    requires i < |fetched|
    ensures Newer(fetched[..i + 1], threshold) ==
              Newer(fetched[..i], threshold)
                + if LexLess(threshold, fetched[i].publishDate) then [fetched[i].(downloadedOrSkiped := false)] else []
  {
    assert fetched[..i + 1][..i] == fetched[..i];
  }

  /** `get_new_episodes`: fetches the show's whole history (the `False`
      passed as offset is written into the URL as `offset=False`, which the
      service is assumed to answer as offset 0; the fetched episodes keep the
      default flag True), computes the latest known date once, then appends
      each newer episode in order with its flag set to False. None where the
      fetch fails; the source then raises and the store is unchanged. */
  method GetNewEpisodes(store: Shows, k: nat, oracle: PageOracle, ghost n: nat) returns (ok: bool)
    requires k < |store.shows|
    requires Ends(oracle, store.shows[k].show.showId, 0, n)
    modifies store
    ensures var fetched := EpisodeData(oracle, old(store.shows[k].show.showId), 0, true, n);
            && ok == fetched.Some?
            && store.shows == if ok then old(store.shows)[k := Synced(old(store.shows[k]), fetched.value)]
                              else old(store.shows)
  {
    var info := store.shows[k].show;
    var fetched := GetEpisodeData(oracle, info.showId, 0, true, n);
    if fetched.None? {
      return false;
    }
    var eps := fetched.value;
    var latestSyncedDate := GetLatestDate(info);
    assert eps[..0] == [] && info.episodes + [] == info.episodes;
    assert store.shows == old(store.shows)[k := Show(info.(episodes := info.episodes + Newer(eps[..0], latestSyncedDate)))];
    var i := 0;
    while i < |eps|
      invariant 0 <= i <= |eps|
      invariant store.shows == old(store.shows)[k := Show(info.(episodes := info.episodes + Newer(eps[..i], latestSyncedDate)))]
    {
      NewerStep(eps, i, latestSyncedDate);
      ghost var before := Newer(eps[..i], latestSyncedDate);
      var episode := eps[i];
      if LexLess(latestSyncedDate, episode.publishDate) {
        var cur := store.shows[k].show;
        var added := episode.(downloadedOrSkiped := false);
        assert cur.episodes == info.episodes + before;
        store.shows := store.shows[k := Show(cur.(episodes := cur.episodes + [added]))];
        assert info.episodes + before + [added] == info.episodes + (before + [added]);
      } else {
        assert before + [] == before;
      }
      i := i + 1;
    }
    assert eps[..i] == eps;
    return true;
  }

  /** The two scenario dates compare as text the way they do as dates. */
  lemma ScenarioDatesOrdered()
    ensures LexLess(Sentinel, "2020-01-01")
    ensures LexLess("2020-01-01", "2020-02-15")
  {
    var a, b := "2020-01-01", "2020-02-15";
    assert a[1..] == "020-01-01" && b[1..] == "020-02-15";
    assert a[2..] == "20-01-01" && b[2..] == "20-02-15";
    assert a[3..] == "0-01-01" && b[3..] == "0-02-15";
    assert a[4..] == "-01-01" && b[4..] == "-02-15";
    assert a[5..] == "01-01" && b[5..] == "02-15";
    assert a[6..] == "1-01" && b[6..] == "2-15";
    assert LexLess("1-01", "2-15");
    assert LexLess("01-01", "02-15");
    assert LexLess("-01-01", "-02-15");
    assert LexLess("0-01-01", "0-02-15");
    assert LexLess("20-01-01", "20-02-15");
    assert LexLess("020-01-01", "020-02-15");
  }

  /** A show of one episode synced against two fetched ones, of which only
      the second is newer, gains that second episode alone. */
  lemma SyncedOneOfTwo(s: Show, e: EpisodeInfo, f1: EpisodeInfo, f2: EpisodeInfo)
    requires s.show.episodes == [e] && LexLess(Sentinel, e.publishDate)
    requires !LexLess(e.publishDate, f1.publishDate) && LexLess(e.publishDate, f2.publishDate)
    ensures Synced(s, [f1, f2]).show.episodes == [e, f2.(downloadedOrSkiped := false)]
  {
    assert LatestDate([e]) == e.publishDate by {
      assert [e][..0] == [];
    }
    var fs := [f1, f2];
    assert fs[..1] == [f1] && [f1][..0] == [];
    assert Newer([f1], e.publishDate) == [];
    assert Newer(fs, e.publishDate) == [f2.(downloadedOrSkiped := false)];
  }

  /** The first scenario: a show "100" holding one processed episode dated
      2020-01-01 is synced against a history of 2020-01-01 and 2020-02-15;
      only the second is appended, flagged for download. */
  lemma SyncScenario(e1: EpisodeInfo, f1: EpisodeInfo, f2: EpisodeInfo, folder: Option<string>)
    requires e1.publishDate == "2020-01-01" && e1.downloadedOrSkiped
    requires f1.publishDate == "2020-01-01" && f2.publishDate == "2020-02-15"
    ensures var after := Synced(Show(ShowInfo("100", [e1], folder)), [f1, f2]).show.episodes;
            after == [e1, f2.(downloadedOrSkiped := false)]
  {
    ScenarioDatesOrdered();
    LexLessIrreflexive("2020-01-01");
    SyncedOneOfTwo(Show(ShowInfo("100", [e1], folder)), e1, f1, f2);
  }

  datatype SubscribeOutcome =
    | MissingOutputFolder  // returns 1
    | AlreadySubscribed    // returns None, nothing written
    | Subscribed           // returns None after one save
    | FetchCrashed         // the fetch failed; the source raises

  /** The show `subscribe` appends: the fetched history, every episode
      flagged with the `--dont_skip_old` value, and the output folder. */
  function NewSubscription(showId: string, fetched: seq<EpisodeInfo>, folder: string): Show
  {
    Show(ShowInfo(showId, fetched, Some(folder)))
  }

  /** `subscribe`: refuses without an output folder, does nothing when the
      show id is already stored, and otherwise appends one show at the end
      of the loaded store and saves once. */
  method Subscribe(env: Environment, args: Args, oracle: PageOracle, ghost n: nat) returns (outcome: SubscribeOutcome)
    requires Ends(oracle, args.subscribe, 0, n)
    modifies env
    ensures env.downloads == old(env.downloads)
    ensures outcome == MissingOutputFolder <==> args.outputFolder.None?
    ensures outcome == AlreadySubscribed <==>
              args.outputFolder.Some? && FindShow(Loaded(old(env.document)), args.subscribe).Some?
    ensures outcome == FetchCrashed <==>
              && args.outputFolder.Some? && FindShow(Loaded(old(env.document)), args.subscribe).None?
              && EpisodeData(oracle, args.subscribe, 0, args.dontSkipOld, n).None?
    ensures outcome != Subscribed ==> env.document == old(env.document) && env.saves == old(env.saves)
    ensures var fetched := EpisodeData(oracle, args.subscribe, 0, args.dontSkipOld, n);
            outcome == Subscribed <==>
              args.outputFolder.Some? && FindShow(Loaded(old(env.document)), args.subscribe).None? && fetched.Some?
    ensures outcome == Subscribed ==>
              var fetched := EpisodeData(oracle, args.subscribe, 0, args.dontSkipOld, n).value;
              && env.saves == old(env.saves) + 1
              && env.document == Some(ShowsToJson(Loaded(old(env.document)) +
                                                 [NewSubscription(args.subscribe, fetched, args.outputFolder.value)]))
  {
    if args.outputFolder == None {
      return MissingOutputFolder;
    }
    var showId := args.subscribe;
    var shows := LoadShows(env);
    var existing := shows.ContainsShowId(showId);
    if existing != None {
      return AlreadySubscribed;
    }
    var fetched := GetEpisodeData(oracle, showId, 0, args.dontSkipOld, n);
    if fetched.None? {
      return FetchCrashed;
    }
    shows.shows := shows.shows + [NewSubscription(showId, fetched.value, args.outputFolder.value)];
    SaveShowData(env, shows);
    return Subscribed;
  }

  /** After a subscription is saved, the store read back holds the new
      show, so subscribing to the same id again does nothing. */
  lemma SubscribeTwice(shows: seq<Show>, showId: string, fetched: seq<EpisodeInfo>, folder: string)
    ensures FindShow(Loaded(Some(ShowsToJson(shows + [NewSubscription(showId, fetched, folder)]))), showId).Some?
  {
    var after := shows + [NewSubscription(showId, fetched, folder)];
    SaveThenLoad(after);
    assert ContainsShowId(after[|shows|].show, showId);
  }
}
