/** The persisted document: the `reprJSON` methods that turn the store into
    JSON values (RFC 8259) and the decoding that `Shows.fromJson`,
    `Show.__init__` and `ShowInfo.__init__` perform on what `json.loads` returns. */
module Json {
  import opened Wrappers
  import opened Text
  import opened Records

  /** A decoded JSON value. Objects keep their members in document order. */
  datatype JValue =
    | JNull
    | JBool(b: bool)
    | JInt(n: int)
    | JString(s: string)
    | JArray(items: seq<JValue>)
    | JObject(fields: seq<(string, JValue)>)

  /** A member lookup on an object's members: the last member with the key
      wins, as it does in the dictionary `json.loads` builds. */
  function GetField(fields: seq<(string, JValue)>, key: string): Option<JValue>
  {
    if fields == [] then None
    else if fields[|fields| - 1].0 == key then Some(fields[|fields| - 1].1)
    else GetField(fields[..|fields| - 1], key)
  }

  /** The lookup fails exactly when no member has the key; otherwise it
      finds the value of a member with the key that no later member repeats. */
  lemma {:induction false} GetFieldFindsLast(fields: seq<(string, JValue)>, key: string)
    ensures GetField(fields, key).None? <==> forall i :: 0 <= i < |fields| ==> fields[i].0 != key
    ensures GetField(fields, key).Some? ==>
              exists i :: 0 <= i < |fields| && fields[i] == (key, GetField(fields, key).value) &&
                          forall k :: i < k < |fields| ==> fields[k].0 != key
    decreases |fields|
  {
    if fields != [] && fields[|fields| - 1].0 != key {
      var init := fields[..|fields| - 1];
      GetFieldFindsLast(init, key);
      if GetField(init, key).Some? {
        var i :| 0 <= i < |init| && init[i] == (key, GetField(init, key).value) &&
                 forall k :: i < k < |init| ==> init[k].0 != key;
        assert fields[i] == init[i];
      } else {
        assert forall i :: 0 <= i < |fields| - 1 ==> fields[i] == init[i];
      }
    }
  }

  /** A member followed by no other member with its key is what the lookup finds. */
  lemma {:induction false} GetFieldAt(fields: seq<(string, JValue)>, i: nat, key: string)
    requires i < |fields| && fields[i].0 == key
    requires forall k :: i < k < |fields| ==> fields[k].0 != key
    ensures GetField(fields, key) == Some(fields[i].1)
    decreases |fields|
  {
    if i < |fields| - 1 {
      GetFieldAt(fields[..|fields| - 1], i, key);
    }
  }

  /** `j[key]`: fails (a KeyError or TypeError in the source) when `j` is
      not an object or has no such member. */
  function Get(j: JValue, key: string): Option<JValue>
  {
    if j.JObject? then GetField(j.fields, key) else None
  }

  function StringField(j: JValue, key: string): Option<string>
  {
    match Get(j, key)
    case Some(JString(s)) => Some(s)
    case _ => None
  }

  function IntField(j: JValue, key: string): Option<int>
  {
    match Get(j, key)
    case Some(JInt(n)) => Some(n)
    case _ => None
  }

  function BoolField(j: JValue, key: string): Option<bool>
  {
    match Get(j, key)
    case Some(JBool(b)) => Some(b)
    case _ => None
  }

  /** A member that is a string or null. */
  function OptStringField(j: JValue, key: string): Option<Option<string>>
  {
    match Get(j, key)
    case Some(JString(s)) => Some(Some(s))
    case Some(JNull) => Some(None)
    case _ => None
  }

  function ArrayField(j: JValue, key: string): Option<seq<JValue>>
  {
    match Get(j, key)
    case Some(JArray(items)) => Some(items)
    case _ => None
  }

  function OptStringToJson(o: Option<string>): JValue
  {
    match o
    case None => JNull
    case Some(s) => JString(s)
  }

  /** `EpisodeInfo.reprJSON`, members in the source's order. */
  function EpisodeToJson(e: EpisodeInfo): JValue
  {
    JObject([("video_name", JString(e.videoName)),
             ("downloaded_or_skiped", JBool(e.downloadedOrSkiped)),
             ("video_id", JInt(e.videoId)),
             ("publish_date", JString(e.publishDate)),
             ("hd_url", OptStringToJson(e.hdUrl)),
             ("high_url", OptStringToJson(e.highUrl)),
             ("low_url", OptStringToJson(e.lowUrl))])
  }

  function EpisodesToJson(eps: seq<EpisodeInfo>): (items: seq<JValue>)
    ensures |items| == |eps|
  {
    seq(|eps|, i requires 0 <= i < |eps| => EpisodeToJson(eps[i]))
  }

  /** `ShowInfo.reprJSON`; the encoder recurses into the episode list. */
  function ShowInfoToJson(info: ShowInfo): JValue
  {
    JObject([("show_id", JString(info.showId)),
             ("episodes", JArray(EpisodesToJson(info.episodes))),
             ("download_folder", OptStringToJson(info.downloadFolder))])
  }

  /** `Show.reprJSON`. */
  function ShowToJson(s: Show): JValue
  {
    JObject([("show", ShowInfoToJson(s.show))])
  }

  /** `Shows.reprJSON`: the whole document that `save_show_data` writes. */
  function ShowsToJson(shows: seq<Show>): JValue
  {
    JObject([("shows", JArray(ShowListToJson(shows)))])
  }

  function ShowListToJson(shows: seq<Show>): (items: seq<JValue>)
    ensures |items| == |shows|
  {
    seq(|shows|, i requires 0 <= i < |shows| => ShowToJson(shows[i]))
  }

  /** The `EpisodeInfo(...)` built from a raw mapping in `ShowInfo.__init__`. */
  function EpisodeFromJson(j: JValue): Option<EpisodeInfo>
  {
    var name :- StringField(j, "video_name");
    var id :- IntField(j, "video_id");
    var date :- StringField(j, "publish_date");
    var hd :- OptStringField(j, "hd_url");
    var high :- OptStringField(j, "high_url");
    var low :- OptStringField(j, "low_url");
    var flag :- BoolField(j, "downloaded_or_skiped");
    Some(EpisodeInfo(name, id, date, hd, high, low, flag))
  }

  /** Every element decodes, and the results keep their order. */
  function EpisodesFromJson(items: seq<JValue>): (r: Option<seq<EpisodeInfo>>)
    ensures r.Some? <==> forall i :: 0 <= i < |items| ==> EpisodeFromJson(items[i]).Some?
    ensures r.Some? ==> |r.value| == |items| &&
                        forall i :: 0 <= i < |items| ==> Some(r.value[i]) == EpisodeFromJson(items[i])
  {
    if forall i :: 0 <= i < |items| ==> EpisodeFromJson(items[i]).Some? then
      Some(seq(|items|, i requires 0 <= i < |items| => EpisodeFromJson(items[i]).value))
    else
      None
  }

  /** `ShowInfo(show["show_id"], show["episodes"], show["download_folder"])`. */
  function ShowInfoFromJson(j: JValue): Option<ShowInfo>
  {
    var id :- StringField(j, "show_id");
    var items :- ArrayField(j, "episodes");
    var eps :- EpisodesFromJson(items);
    var folder :- OptStringField(j, "download_folder");
    Some(ShowInfo(id, eps, folder))
  }

  /** `Show(show["show"])` applied to one element of the `shows` array. */
  function ShowFromJson(j: JValue): Option<Show>
  {
    var inner :- Get(j, "show");
    var info :- ShowInfoFromJson(inner);
    Some(Show(info))
  }

  /** `Shows.fromJson` as a value: None wherever the source raises. */
  function ShowsFromJson(j: JValue): (r: Option<seq<Show>>)
    ensures r.Some? <==> ArrayField(j, "shows").Some? &&
                         forall i :: 0 <= i < |ArrayField(j, "shows").value| ==>
                           ShowFromJson(ArrayField(j, "shows").value[i]).Some?
    ensures r.Some? ==> |r.value| == |ArrayField(j, "shows").value| &&
                        forall i :: 0 <= i < |r.value| ==>
                          Some(r.value[i]) == ShowFromJson(ArrayField(j, "shows").value[i])
  {
    var items :- ArrayField(j, "shows");
    if forall i :: 0 <= i < |items| ==> ShowFromJson(items[i]).Some? then
      Some(seq(|items|, i requires 0 <= i < |items| => ShowFromJson(items[i]).value))
    else
      None
  }

  /** Each member the decoder asks for is found in the encoded episode. */
  lemma EpisodeFieldsRoundTrip(e: EpisodeInfo)
    ensures StringField(EpisodeToJson(e), "video_name") == Some(e.videoName)
    ensures BoolField(EpisodeToJson(e), "downloaded_or_skiped") == Some(e.downloadedOrSkiped)
    ensures IntField(EpisodeToJson(e), "video_id") == Some(e.videoId)
    ensures StringField(EpisodeToJson(e), "publish_date") == Some(e.publishDate)
    ensures OptStringField(EpisodeToJson(e), "hd_url") == Some(e.hdUrl)
    ensures OptStringField(EpisodeToJson(e), "high_url") == Some(e.highUrl)
    ensures OptStringField(EpisodeToJson(e), "low_url") == Some(e.lowUrl)
  {
    var fs := EpisodeToJson(e).fields;
    GetFieldAt(fs, 0, "video_name");
    GetFieldAt(fs, 1, "downloaded_or_skiped");
    GetFieldAt(fs, 2, "video_id");
    GetFieldAt(fs, 3, "publish_date");
    GetFieldAt(fs, 4, "hd_url");
    GetFieldAt(fs, 5, "high_url");
    GetFieldAt(fs, 6, "low_url");
  }

  lemma EpisodeRoundTrip(e: EpisodeInfo)
    ensures EpisodeFromJson(EpisodeToJson(e)) == Some(e)
  {
    EpisodeFieldsRoundTrip(e);
  }

  /** The episode list written by `reprJSON` reads back as the same
      episodes in the same order. */
  lemma EpisodesRoundTrip(eps: seq<EpisodeInfo>)
    ensures EpisodesFromJson(EpisodesToJson(eps)) == Some(eps)
  {
    var items := EpisodesToJson(eps);
    forall i | 0 <= i < |items|
      ensures EpisodeFromJson(items[i]) == Some(eps[i])
    {
      EpisodeRoundTrip(eps[i]);
    }
    var decoded := EpisodesFromJson(items);
    assert decoded.Some?;
    assert decoded.value == eps by {
      forall i | 0 <= i < |items| ensures decoded.value[i] == eps[i] {
        assert Some(decoded.value[i]) == EpisodeFromJson(items[i]);
      }
    }
  }

  lemma ShowRoundTrip(s: Show)
    ensures ShowFromJson(ShowToJson(s)) == Some(s)
  {
    var info := s.show;
    var j := ShowInfoToJson(info);
    var items := EpisodesToJson(info.episodes);
    assert StringField(j, "show_id") == Some(info.showId) by { GetFieldAt(j.fields, 0, "show_id"); }
    assert ArrayField(j, "episodes") == Some(items) by { GetFieldAt(j.fields, 1, "episodes"); }
    assert OptStringField(j, "download_folder") == Some(info.downloadFolder) by {
      GetFieldAt(j.fields, 2, "download_folder");
    }
    EpisodesRoundTrip(info.episodes);
    assert Get(ShowToJson(s), "show") == Some(j) by { GetFieldAt(ShowToJson(s).fields, 0, "show"); }
  }

  /** Writing the store with `reprJSON` and reading it back with
      `Shows.fromJson` gives the same shows in the same order, every
      episode with all seven fields, null URLs included. */
  lemma ShowsRoundTrip(shows: seq<Show>)
    ensures ShowsFromJson(ShowsToJson(shows)) == Some(shows)
  {
    var items := ShowListToJson(shows);
    assert ArrayField(ShowsToJson(shows), "shows") == Some(items) by {
      GetFieldAt(ShowsToJson(shows).fields, 0, "shows");
    }
    forall i | 0 <= i < |items|
      ensures ShowFromJson(items[i]) == Some(shows[i])
    {
      ShowRoundTrip(shows[i]);
    }
    var decoded := ShowsFromJson(ShowsToJson(shows));
    assert decoded.Some? && decoded.value == shows;
  }
}
