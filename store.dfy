/** The subscription store (`Shows`) and the side effects around it:
    `shows.json` on disk, written by `save_show_data` and read back with a
    fall-back to an empty store, and the downloads that were requested. */
module Store {
  import opened Wrappers
  import opened Text
  import opened Records
  import opened Json

  /** One call of `download_video(url, filename)`. */
  datatype Download = Download(url: string, filename: string)

  /** What lies outside the process: the decoded content of `shows.json`
      (None when the file is missing or is not JSON), how many times it was
      written, and the transfers asked of the download collaborator. */
  class Environment {
    var document: Option<JValue>
    var saves: nat
    var downloads: seq<Download>

    constructor (document: Option<JValue>)
      ensures this.document == document && saves == 0 && downloads == []
    {
      this.document := document;
      saves := 0;
      downloads := [];
    }
  }

  /** The store a command starts from: the decoded document, or the empty
      store wherever opening or decoding it raises (the bare `except:`). */
  function Loaded(document: Option<JValue>): seq<Show>
  {
    match document
    case None => []
    case Some(j) =>
      match ShowsFromJson(j)
      case None => []
      case Some(shows) => shows
  }

  /** `ShowInfo.__init__` and `Show.__init__` on a raw mapping: the loop
      that turns each raw episode into an `EpisodeInfo`. */
  method BuildShow(j: JValue) returns (r: Option<Show>)
    ensures r == ShowFromJson(j)
  {
    var inner := Get(j, "show");
    if inner.None? {
      return None;
    }
    var showId := StringField(inner.value, "show_id");
    var raw := ArrayField(inner.value, "episodes");
    if showId.None? || raw.None? {
      return None;
    }
    var items := raw.value;
    var episodes: seq<EpisodeInfo> := [];
    var i := 0;
    while i < |items|
      invariant 0 <= i <= |items|
      invariant |episodes| == i
      invariant forall k :: 0 <= k < i ==> EpisodeFromJson(items[k]) == Some(episodes[k])
    {
      var e := EpisodeFromJson(items[i]);
      if e.None? {
        return None;
      }
      episodes := episodes + [e.value];
      i := i + 1;
    }
    assert EpisodesFromJson(items).Some?;
    assert forall k :: 0 <= k < |items| ==> Some(EpisodesFromJson(items).value[k]) == Some(episodes[k]);
    assert EpisodesFromJson(items).value == episodes;
    assert ShowInfoFromJson(inner.value) == (
      var folder :- OptStringField(inner.value, "download_folder");
      Some(ShowInfo(showId.value, episodes, folder)));
    var folder := OptStringField(inner.value, "download_folder");
    if folder.None? {
      return None;
    }
    return Some(Show(ShowInfo(showId.value, episodes, folder.value)));
  }

  class Shows {
    var shows: seq<Show>

    /** `Shows()`: the empty store. */
    constructor ()
      ensures shows == []
    {
      shows := [];
    }

    /** `Shows.fromJson`: empties the store and appends one `Show` per element
      of the document's `shows` array; false where the source raises. */
    method FromJson(j: JValue) returns (ok: bool)
      modifies this
      ensures ok <==> ShowsFromJson(j).Some?
      ensures ok ==> shows == ShowsFromJson(j).value
    {
      shows := [];
      var raw := ArrayField(j, "shows");
      if raw.None? {
        return false;
      }
      var items := raw.value;
      var i := 0;
      while i < |items|
        invariant 0 <= i <= |items|
        invariant |shows| == i
        invariant forall k :: 0 <= k < i ==> ShowFromJson(items[k]) == Some(shows[k])
      {
        var s := BuildShow(items[i]);
        if s.None? {
          return false;
        }
        shows := shows + [s.value];
        i := i + 1;
      }
      ok := true;
      assert ShowsFromJson(j).Some?;
      var decoded := ShowsFromJson(j).value;
      assert forall k :: 0 <= k < |items| ==> Some(decoded[k]) == Some(shows[k]);
    }

    /** `Shows.contains_show_id`: scans the list in order and stops at the
      first show with the id; None where the source returns False. */
    method ContainsShowId(showId: string) returns (r: Option<nat>)
      ensures r == FindShow(shows, showId)
    {
      var i := 0;
      while i < |shows|
        invariant 0 <= i <= |shows|
        invariant forall j :: 0 <= j < i ==> !Records.ContainsShowId(shows[j].show, showId)
      {
        if Records.ContainsShowId(shows[i].show, showId) {
          return Some(i);
        }
        i := i + 1;
      }
      return None;
    }
  }

  /** `save_show_data`: writes the whole store, replacing the document. */
  method SaveShowData(env: Environment, store: Shows)
    modifies env`document, env`saves
    ensures env.document == Some(ShowsToJson(store.shows))
    ensures env.saves == old(env.saves) + 1
  {
    env.document := Some(ShowsToJson(store.shows));
    env.saves := env.saves + 1;
  }

  /** The start of `subscribe` and `download_subscriptions`: read the
      document into a new store, or start empty if that raises. */
  method LoadShows(env: Environment) returns (store: Shows)
    ensures fresh(store)
    ensures store.shows == Loaded(env.document)
  {
    store := new Shows();
    if env.document.Some? {
      var ok := store.FromJson(env.document.value);
      if !ok {
        store := new Shows();
      }
    }
  }

  /** One show entry of the document that does not decode makes
      `fromJson` raise, so the load falls back to the empty store and every
      other subscription is lost with it. */
  lemma OneBadShowLosesStore(shows: seq<Show>, i: nat, bad: JValue)
    requires i < |shows| && ShowFromJson(bad).None?
    ensures Loaded(Some(JObject([("shows", JArray(ShowListToJson(shows)[i := bad]))]))) == []
  {
    var items := ShowListToJson(shows)[i := bad];
    var j := JObject([("shows", JArray(items))]);
    assert ArrayField(j, "shows") == Some(items) by {
      GetFieldAt(j.fields, 0, "shows");
    }
    assert !ShowFromJson(items[i]).Some?;
    assert ShowsFromJson(j) == None;
  }

  /** What `save_show_data` writes, the next load reads back unchanged. */
  lemma SaveThenLoad(shows: seq<Show>)
    ensures Loaded(Some(ShowsToJson(shows))) == shows
  {
    ShowsRoundTrip(shows);
  }
}
