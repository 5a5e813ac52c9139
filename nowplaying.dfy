/**
 * `get_spotify_np` from the decoded body onwards: the normalization of a
 * currently-playing response into a playback tuple, including the loop that
 * joins the artist names.
 */
module NowPlaying {
  import opened Wrappers
  import opened Json
  import opened GoReflect

  /** The six named results of `get_spotify_np`. */
  datatype Playback = Playback(
    isPlaying: bool, title: string, artist: string, album: string, url: string, progress: int)

  /** The zero values the named results start with. */
  const NotPlaying := Playback(false, "", "", "", "", 0)

  /** The separator put between artist names. */
  const Separator := ", "

  /** Names joined with `sep` between consecutive names: the reference
      definition of the artist string. */
  function Join(names: seq<string>, sep: string): string
    decreases |names|
  {
    if |names| == 0 then ""
    else if |names| == 1 then names[0]
    else names[0] + sep + Join(names[1..], sep)
  }

  /** Appending a name to a non-empty list adds one separator and the name. */
  lemma {:induction false} JoinSnoc(names: seq<string>, name: string, sep: string)
    requires |names| > 0
    ensures Join(names + [name], sep) == Join(names, sep) + sep + name
  {
    if |names| == 1 {
      assert (names + [name])[1..] == [name];
    } else {
      assert (names + [name])[1..] == names[1..] + [name];
      JoinSnoc(names[1..], name, sep);
    }
  }

  /** No trailing separator: a joined list ends with its last name. */
  lemma {:induction false} JoinEndsWithLast(names: seq<string>, sep: string)
    requires |names| > 0
    ensures |Join(names, sep)| >= |names[|names| - 1]|
    ensures Join(names, sep)[|Join(names, sep)| - |names[|names| - 1]|..] == names[|names| - 1]
  {
    if |names| > 1 {
      JoinEndsWithLast(names[1..], sep);
      var rest := Join(names[1..], sep);
      var last := names[|names| - 1];
      assert names[1..][|names[1..]| - 1] == last;
      assert Join(names, sep) == (names[0] + sep) + rest;
      assert Join(names, sep)[|Join(names, sep)| - |last|..] == rest[|rest| - |last|..];
    }
  }

  /** No leading separator: a joined list starts with its first name. */
  lemma JoinStartsWithFirst(names: seq<string>, sep: string)
    requires |names| > 0
    ensures |Join(names, sep)| >= |names[0]|
    ensures Join(names, sep)[..|names[0]|] == names[0]
  {
    if |names| > 1 {
      assert Join(names, sep) == names[0] + (sep + Join(names[1..], sep));
    }
  }

  /** The length of a joined list: every name plus one separator per gap. */
  lemma {:induction false} JoinLength(names: seq<string>, sep: string)
    requires |names| > 0
    ensures |Join(names, sep)| == TotalLength(names) + (|names| - 1) * |sep|
  {
    if |names| > 1 {
      JoinLength(names[1..], sep);
    }
  }

  function TotalLength(names: seq<string>): nat
    decreases |names|
  {
    if names == [] then 0 else |names[0]| + TotalLength(names[1..])
  }

  /** Three artists render as one string with two separators. */
  lemma JoinThree()
    ensures Join(["X", "Y", "Z"], Separator) == "X, Y, Z"
  {
    assert ["X", "Y", "Z"][1..] == ["Y", "Z"];
    assert ["Y", "Z"][1..] == ["Z"];
  }

  /** `j.(map[string]interface{})[key]` without the final assertion; a value
      that is not an object reads as null (its assertion panics on every path
      that uses it). */
  function Member(j: Json, key: string): Json
  {
    if j.JObject? then Lookup(j.fields, key) else JNull
  }

  /** Every element of the `artists` array is an object with a string `name`. */
  predicate AllNamed(artists: seq<Json>) {
    forall k :: 0 <= k < |artists| ==> StringAt(artists[k], "name").Some?
  }

  /** The names of the artists, in array order. */
  function Names(artists: seq<Json>): seq<string>
    requires AllNamed(artists)
  {
    seq(|artists|, k requires 0 <= k < |artists| => StringAt(artists[k], "name").value)
  }

  /** The artist-join loop: each name is appended, followed by a separator
      unless it is the last. An element without a string name fails its type
      assertion. */
  method JoinArtists(artists: seq<Json>) returns (r: Result<string, Fatal>)
    ensures r.Ok? <==> AllNamed(artists)
    ensures r.Ok? ==> r.value == Join(Names(artists), Separator)
    ensures r.Err? ==> r.error == TypeAssertion
  {
    var artist := "";
    ghost var names: seq<string> := [];
    var i := 0;
    while i < |artists|
      invariant 0 <= i <= |artists|
      invariant |names| == i
      invariant forall k :: 0 <= k < i ==> StringAt(artists[k], "name") == Some(names[k])
      invariant i == 0 ==> artist == ""
      invariant 0 < i ==> artist == Join(names, Separator) + (if i < |artists| then Separator else "")
    {
      var name := StringAt(artists[i], "name");
      if name.None? {
        return Err(TypeAssertion);
      }
      artist := artist + name.value;
      if i < |artists| - 1 {
        artist := artist + Separator;
      }
      if i > 0 {
        JoinSnoc(names, name.value, Separator);
      }
      names := names + [name.value];
      i := i + 1;
    }
    assert names == Names(artists);
    return Ok(artist);
  }

  /** The paths of a playing response: `item.name`, `item.artists[*].name`,
      `item.album.name`, `item.external_urls.spotify` and `progress_ms`,
      holding the values of `pb`. */
  predicate Reports(doc: Json, pb: Playback) {
    && pb.isPlaying
    && doc.JObject?
    && Lookup(doc.fields, "is_playing") == JBool(true)
    && var item := Lookup(doc.fields, "item");
    && StringAt(item, "name") == Some(pb.title)
    && Member(item, "artists").JArray?
    && AllNamed(Member(item, "artists").elems)
    && pb.artist == Join(Names(Member(item, "artists").elems), Separator)
    && StringAt(Member(item, "album"), "name") == Some(pb.album)
    && StringAt(Member(item, "external_urls"), "spotify") == Some(pb.url)
    && Lookup(doc.fields, "progress_ms") == JNumber(pb.progress)
  }

  /** The playing branch: every field read through its type assertions. */
  function PlayingTrack(fields: map<string, Json>): (r: Result<Playback, Fatal>)
    ensures r.Ok? ==> Reports(JObject(fields["is_playing" := JBool(true)]), r.value)
    ensures r.Err? ==> r.error == TypeAssertion
  {
    var item := Lookup(fields, "item");
    var title := StringAt(item, "name");
    var artists := Member(item, "artists");
    var album := StringAt(Member(item, "album"), "name");
    var url := StringAt(Member(item, "external_urls"), "spotify");
    var progress := Lookup(fields, "progress_ms");
    if title.Some? && artists.JArray? && AllNamed(artists.elems) && album.Some? && url.Some?
       && progress.JNumber?
    then Ok(Playback(true, title.value, Join(Names(artists.elems), Separator), album.value,
                     url.value, progress.n))
    else Err(TypeAssertion)
  }

  /** What `get_spotify_np` returns for a decoded body. An empty or truncated
      body means nothing is playing; any other decoding error is fatal; a null
      or missing `is_playing` exits with status 1; a false one gives empty
      strings and zero url and progress; a true one gives the track read from
      the response. */
  function Normalize(body: ParseResult): (r: Result<Playback, Fatal>)
    ensures body.UnexpectedEnd? ==> r == Ok(NotPlaying)
    ensures r == Err(ParseFailure) <==> body.SyntaxError?
    ensures body.Parsed? && body.doc.JObject? && Lookup(body.doc.fields, "is_playing") == JNull
            ==> r == Err(NullField)
    ensures body.Parsed? && !body.doc.JObject? ==> r == Err(TypeAssertion)
    ensures (body.Parsed? && body.doc.JObject? && !Lookup(body.doc.fields, "is_playing").JNull?
             && !Lookup(body.doc.fields, "is_playing").JBool?) ==> r == Err(TypeAssertion)
    ensures r.Ok? && !r.value.isPlaying ==> r.value == NotPlaying
    ensures r.Ok? && !r.value.isPlaying <==>
            body.UnexpectedEnd?
            || (body.Parsed? && body.doc.JObject?
                && Lookup(body.doc.fields, "is_playing") == JBool(false))
    ensures r.Ok? && r.value.isPlaying ==> body.Parsed? && Reports(body.doc, r.value)
  {
    match body
    case UnexpectedEnd => Ok(NotPlaying)
    case SyntaxError => Err(ParseFailure)
    case Parsed(doc) =>
      if !doc.JObject? then Err(TypeAssertion)
      else
        var flag := Lookup(doc.fields, "is_playing");
        if IsNil(FromJson(flag)) then Err(NullField)
        else if !flag.JBool? then Err(TypeAssertion)
        else if !flag.b then Ok(NotPlaying)
        else PlayingTrack(doc.fields)
  }

  /** Conversely, a response that reports a playing track normalizes to
      exactly that track. */
  lemma NormalizeComplete(doc: Json, pb: Playback)
    requires Reports(doc, pb)
    ensures Normalize(Parsed(doc)) == Ok(pb)
  {
    IsNilOfJson(Lookup(doc.fields, "is_playing"));
  }

  /** The body of `get_spotify_np` after the HTTP exchange, assigning its named
      results step by step. */
  method GetNowPlaying(body: ParseResult) returns (r: Result<Playback, Fatal>)
    ensures r == Normalize(body)
  {
    var isPlaying, title, artist, album, url, progress := false, "", "", "", "", 0;
    if !body.Parsed? {
      if body.UnexpectedEnd? {
        isPlaying := false;
        title, artist, album := "", "", "";
        return Ok(Playback(isPlaying, title, artist, album, url, progress));
      }
      return Err(ParseFailure);
    }
    var doc := body.doc;
    if !doc.JObject? {
      return Err(TypeAssertion);
    }
    var flag := Lookup(doc.fields, "is_playing");
    if IsNil(FromJson(flag)) {
      return Err(NullField);
    }
    if !flag.JBool? {
      return Err(TypeAssertion);
    }
    isPlaying := flag.b;
    if isPlaying {
      var item := Lookup(doc.fields, "item");
      var name := StringAt(item, "name");
      if name.None? {
        return Err(TypeAssertion);
      }
      title := name.value;
      var artists := Member(item, "artists");
      if !artists.JArray? {
        return Err(TypeAssertion);
      }
      var joined := JoinArtists(artists.elems);
      if joined.Err? {
        return Err(joined.error);
      }
      artist := joined.value;
      var albumName := StringAt(Member(item, "album"), "name");
      if albumName.None? {
        return Err(TypeAssertion);
      }
      album := albumName.value;
      var link := StringAt(Member(item, "external_urls"), "spotify");
      if link.None? {
        return Err(TypeAssertion);
      }
      url := link.value;
      var ms := Lookup(doc.fields, "progress_ms");
      if !ms.JNumber? {
        return Err(TypeAssertion);
      }
      progress := ms.n;
    } else {
      isPlaying := false;
      title, artist, album := "", "", "";
    }
    return Ok(Playback(isPlaying, title, artist, album, url, progress));
  }
}
