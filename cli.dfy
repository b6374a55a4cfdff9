/** The parsed command line and the small helpers around it: the status
    code table, `validate_args`, and the request URL with its filter part. */
module Cli {
  import opened Wrappers
  import opened Text

  /** The options `main` gets from `argparse`, as the fields the core reads.
      `subscribe` is the show id given to `--subscribe_to_show_id`;
      `dontSkipOld` is the stored value of the `store_false` flag
      `--dont_skip_old` (True unless the flag is given). */
  class Args {
    var limit: int
    var offest: int
    var quality: Option<string>
    var sortOrder: string
    var shouldFilter: bool
    var filterName: Option<string>
    var contentId: Option<string>
    var videoType: Option<string>
    var showId: Option<string>
    var outputFolder: Option<string>
    var subscribe: string
    var dontSkipOld: bool

    /** The defaults `argparse` gives when no option is passed. */
    constructor ()
      ensures limit == 25 && offest == 0 && quality == Some("high") && sortOrder == "desc"
      ensures !shouldFilter && filterName.None? && contentId.None? && videoType.None? && showId.None?
      ensures outputFolder.None? && subscribe == "" && dontSkipOld
    {
      limit, offest, quality, sortOrder := 25, 0, Some("high"), "desc";
      shouldFilter, filterName, contentId, videoType, showId := false, None, None, None, None;
      outputFolder, subscribe, dontSkipOld := None, "", true;
    }
  }

  /** `STATUS_CODES`: the API's status codes and their messages. */
  function StatusCodeMessage(code: int): Option<string>
  {
    if code == 1 then Some("OK")
    else if code == 100 then Some("Invalid API Key")
    else if code == 101 then Some("Object Not Found")
    else if code == 102 then Some("Error in URL Format")
    else if code == 103 then Some("jsonp' format requires a 'json_callback' argument")
    else if code == 104 then Some("Filter Error")
    else if code == 105 then Some("Subscriber only video is for subscribers only")
    else None
  }

  /** `get_status_code_as_string`: the table's message, or "Unknown".
      Only code 1 reads as "OK", and "Unknown" is exactly a code outside the table. */
  function GetStatusCodeAsString(code: int): (r: string)
    ensures r == "OK" <==> code == 1
    ensures r == "Unknown" <==> code !in {1, 100, 101, 102, 103, 104, 105}
  {
    match StatusCodeMessage(code)
    case Some(m) => m
    case None => "Unknown"
  }

  const VideoQualities: set<string> := {"low", "high", "hd"}

  /** `validate_args`: filter options need `--filter`, the quality must be
      one of low/high/hd when given, and the sort order asc or desc. */
  function ValidateArgs(opts: Args): (ok: bool)
    reads opts
    ensures ok ==> opts.sortOrder == "asc" || opts.sortOrder == "desc"
    ensures ok ==> opts.quality.None? || opts.quality.value in VideoQualities
    ensures ok ==> opts.shouldFilter || (opts.filterName.None? && opts.contentId.None? && opts.videoType.None?)
    ensures !ok ==> || (!opts.shouldFilter && (opts.filterName.Some? || opts.contentId.Some? || opts.videoType.Some?))
                    || (opts.quality.Some? && opts.quality.value !in VideoQualities)
                    || (opts.sortOrder != "asc" && opts.sortOrder != "desc")
  {
    if !opts.shouldFilter && (opts.filterName != None || opts.contentId != None || opts.videoType != None) then false
    else if opts.quality != None && opts.quality.value !in VideoQualities then false
    else if opts.sortOrder != "asc" && opts.sortOrder != "desc" then false
    else true
  }

  /** One `key:value,` term of the filter (`key` ends in the colon);
      nothing when the option is absent. */
  function FilterTerm(key: string, value: Option<string>): string
  {
    match value
    case None => ""
    case Some(v) => key + v + ","
  }

  /** The filter part of the request URL for the given option values, the
      name with its spaces written as `%20`. */
  function FilterString(shouldFilter: bool, filterName: Option<string>, contentId: Option<string>,
                        videoType: Option<string>, showId: Option<string>): (s: string)
    ensures s == "" <==> !shouldFilter
    ensures shouldFilter ==> |s| >= 8 && s[..8] == "&filter="
  {
    if !shouldFilter then ""
    else
      var name := match filterName case None => None case Some(n) => Some(Replace(n, ' ', "%20"));
      "&filter=" + FilterTerm("name:", name) + FilterTerm("id:", contentId)
                 + FilterTerm("video_type:", videoType) + FilterTerm("video_show:", showId)
  }

  /** The name term never holds a space once written into the URL. */
  lemma FilterNameHasNoSpace(n: string)
    ensures ' ' !in FilterTerm("name:", Some(Replace(n, ' ', "%20")))
  {
    var r := Replace(n, ' ', "%20");
    assert ' ' !in "%20";
    assert FilterTerm("name:", Some(r)) == "name:" + r + ",";
    assert forall i :: 0 <= i < |"name:"| ==> "name:"[i] != ' ';
  }

  /** The piece a present option leaves between the commas of the filter:
      `key:value`, or nothing when the option is absent. */
  function Present(key: string, value: Option<string>): seq<string>
  {
    match value
    case None => []
    case Some(v) => [key + v]
  }

  /** A filter term followed by more text splits at the commas into the
      term's piece and the pieces of the rest. */
  lemma TermSplits(key: string, value: Option<string>, rest: string)
    requires ',' !in key
    requires value.Some? ==> ',' !in value.value
    ensures Split(FilterTerm(key, value) + rest, ',') == Present(key, value) + Split(rest, ',')
  {
    if value.Some? {
      var piece := key + value.value;
      assert FilterTerm(key, value) + rest == piece + [','] + rest;
      SplitAfterPiece(piece, ',', rest);
    } else {
      assert FilterTerm(key, value) + rest == rest;
    }
  }

  /** Reading the filter back: after `&filter=`, splitting at the commas
      yields exactly the present options' `key:value` pieces, in the order
      name, id, video type, show, then the empty piece after the last
      comma, as long as no value holds a comma itself. */
  lemma FilterStringParsesBack(filterName: Option<string>, contentId: Option<string>,
                               videoType: Option<string>, showId: Option<string>)
    requires filterName.Some? ==> ',' !in filterName.value
    requires contentId.Some? ==> ',' !in contentId.value
    requires videoType.Some? ==> ',' !in videoType.value
    requires showId.Some? ==> ',' !in showId.value
    ensures var s := FilterString(true, filterName, contentId, videoType, showId);
            var name := match filterName case None => None case Some(n) => Some(Replace(n, ' ', "%20"));
            Split(s[8..], ',') ==
              Present("name:", name) + Present("id:", contentId) + Present("video_type:", videoType)
              + Present("video_show:", showId) + [""]
  {
    var name := match filterName case None => None case Some(n) => Some(Replace(n, ' ', "%20"));
    if filterName.Some? {
      assert ',' !in "%20";
      ReplaceKeepsAbsent(filterName.value, ' ', "%20", ',');
    }
    var t1, t2, t3, t4 := FilterTerm("name:", name), FilterTerm("id:", contentId),
                          FilterTerm("video_type:", videoType), FilterTerm("video_show:", showId);
    var s := FilterString(true, filterName, contentId, videoType, showId);
    assert s == "&filter=" + t1 + t2 + t3 + t4;
    Regroup("&filter=", t1, t2, t3, t4);
    assert s[8..] == t1 + (t2 + (t3 + t4));
    TermsSplit(name, contentId, videoType, showId);
    Regroup(Present("name:", name), Present("id:", contentId), Present("video_type:", videoType),
            Present("video_show:", showId), [""]);
  }

  /** The four terms split back into their pieces. */
  lemma TermsSplit(name: Option<string>, contentId: Option<string>,
                   videoType: Option<string>, showId: Option<string>)
    requires name.Some? ==> ',' !in name.value
    requires contentId.Some? ==> ',' !in contentId.value
    requires videoType.Some? ==> ',' !in videoType.value
    requires showId.Some? ==> ',' !in showId.value
    ensures Split(FilterTerm("name:", name) + (FilterTerm("id:", contentId)
                  + (FilterTerm("video_type:", videoType) + FilterTerm("video_show:", showId))), ',') ==
              Present("name:", name) + (Present("id:", contentId) + (Present("video_type:", videoType)
              + (Present("video_show:", showId) + [""])))
  {
    var t3, t4 := FilterTerm("video_type:", videoType), FilterTerm("video_show:", showId);
    assert Split("", ',') == [""];
    TermSplits("video_show:", showId, "");
    assert t4 + "" == t4;
    TermSplits("video_type:", videoType, t4);
    TermSplits("id:", contentId, t3 + t4);
    TermSplits("name:", name, FilterTerm("id:", contentId) + (t3 + t4));
  }

  /** Concatenation regrouped to the right. */
  lemma Regroup<T>(a: seq<T>, b: seq<T>, c: seq<T>, d: seq<T>, e: seq<T>)
    ensures a + b + c + d + e == a + (b + (c + (d + e)))
  {
  }

  /** Decoding `%20` back into a space, the way the service reads the name. */
  function DecodeSpaces(s: string): string
  {
    if s == [] then []
    else if |s| >= 3 && s[..3] == "%20" then " " + DecodeSpaces(s[3..])
    else [s[0]] + DecodeSpaces(s[1..])
  }

  /** Writing spaces as `%20` loses nothing for a name without `%`: decoding
      gives the name back. */
  lemma {:induction false} DecodeSpacesRoundTrip(n: string)
    requires '%' !in n
    ensures DecodeSpaces(Replace(n, ' ', "%20")) == n
  {
    if n != [] {
      var rest := Replace(n[1..], ' ', "%20");
      DecodeSpacesRoundTrip(n[1..]);
      if n[0] == ' ' {
        assert Replace(n, ' ', "%20") == "%20" + rest;
        assert ("%20" + rest)[..3] == "%20" && ("%20" + rest)[3..] == rest;
      } else {
        assert Replace(n, ' ', "%20") == [n[0]] + rest;
        assert n[0] != '%';
        assert ([n[0]] + rest)[1..] == rest;
      }
      assert [n[0]] + n[1..] == n;
    }
  }

  /** `create_filter_string_from_args`: builds the filter part term by term
      and leaves the space-encoded name in `args.filterName`. */
  method CreateFilterStringFromArgs(args: Args) returns (filter: string)
    modifies args`filterName
    ensures filter == FilterString(old(args.shouldFilter), old(args.filterName), old(args.contentId),
                                   old(args.videoType), old(args.showId))
    ensures args.filterName == if args.shouldFilter && old(args.filterName).Some?
                               then Some(Replace(old(args.filterName).value, ' ', "%20"))
                               else old(args.filterName)
  {
    ghost var name := if args.filterName.Some? then Some(Replace(args.filterName.value, ' ', "%20")) else None;
    filter := "";
    if args.shouldFilter {
      filter := filter + "&filter=";
      if args.filterName != None {
        args.filterName := Some(Replace(args.filterName.value, ' ', "%20"));
        filter := filter + ("name:" + args.filterName.value + ",");
      }
      assert filter == "&filter=" + FilterTerm("name:", name);
      if args.contentId != None {
        filter := filter + ("id:" + args.contentId.value + ",");
      }
      assert filter == "&filter=" + FilterTerm("name:", name) + FilterTerm("id:", args.contentId);
      if args.videoType != None {
        filter := filter + ("video_type:" + args.videoType.value + ",");
      }
      assert filter == "&filter=" + FilterTerm("name:", name) + FilterTerm("id:", args.contentId)
                       + FilterTerm("video_type:", args.videoType);
      if args.showId != None {
        filter := filter + ("video_show:" + args.showId.value + ",");
      }
    }
  }

  const VideosEndpoint: string := "http://www.giantbomb.com/api/videos/"

  /** `create_request_url`: the videos endpoint with the key, JSON format,
      `str(limit)`, `str(offset)` and the id sort order as query parameters. */
  function CreateRequestUrl(apiKey: string, limit: int, offest: int, sortOrder: string): (url: string)
    ensures |VideosEndpoint| <= |url| && url[..|VideosEndpoint|] == VideosEndpoint
  {
    VideosEndpoint + "?api_key=" + apiKey + "&format=json"
      + "&limit=" + IntToString(limit) + "&offset=" + IntToString(offest) + "&sort=id:" + sortOrder
  }

  /** The limit and the offset can be read back from the URL: each is
      written as a decimal that parses to the option's value. */
  lemma RequestUrlCarriesPaging(apiKey: string, limit: int, offest: int, sortOrder: string)
    ensures var url := CreateRequestUrl(apiKey, limit, offest, sortOrder);
            var head := VideosEndpoint + "?api_key=" + apiKey + "&format=json" + "&limit=";
            var l := IntToString(limit);
            var o := IntToString(offest);
            && url == head + l + "&offset=" + o + "&sort=id:" + sortOrder
            && ParseInt(l) == limit && ParseInt(o) == offest
  {
    IntToStringRoundTrip(limit);
    IntToStringRoundTrip(offest);
  }
}
