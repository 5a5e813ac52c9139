/**
 * The `.env` text `save_refresh_token` builds once the refresh token is
 * known: the seven configuration keys, one `KEY=value` line each, in a
 * fixed order; and a line reader that loads it back.
 */
module EnvFile {
  import opened Wrappers

  /** The seven configuration values the file holds. */
  datatype Credentials = Credentials(
    twitterCK: string, twitterCS: string, twitterAT: string, twitterAS: string,
    spotifyClientId: string, spotifyClientSecret: string, spotifyRefreshToken: string)

  /** The keys, in the order the file lists them. */
  const Keys: seq<string> := [
    "TWITTER_CK", "TWITTER_CS", "TWITTER_AT", "TWITTER_AS",
    "SPOTIFY_CLIENT_ID", "SPOTIFY_CLIENT_SECRET", "SPOTIFY_REFRESH_TOKEN"]

  /** The values, in the same order as `Keys`. */
  function Values(c: Credentials): (vs: seq<string>)
    ensures |vs| == |Keys|
  {
    [c.twitterCK, c.twitterCS, c.twitterAT, c.twitterAS,
     c.spotifyClientId, c.spotifyClientSecret, c.spotifyRefreshToken]
  }

  /** One `KEY=value` line with its newline. */
  function Line(key: string, value: string): string {
    key + "=" + value + "\n"
  }

  /** The text of the format string: each key, `=`, its value and a newline. */
  function EnvText(c: Credentials): string {
    Line("TWITTER_CK", c.twitterCK) + (
    Line("TWITTER_CS", c.twitterCS) + (
    Line("TWITTER_AT", c.twitterAT) + (
    Line("TWITTER_AS", c.twitterAS) + (
    Line("SPOTIFY_CLIENT_ID", c.spotifyClientId) + (
    Line("SPOTIFY_CLIENT_SECRET", c.spotifyClientSecret) + (
    Line("SPOTIFY_REFRESH_TOKEN", c.spotifyRefreshToken)))))))
  }

  /** Key/value pairs rendered as lines, in order. */
  function Render(entries: seq<(string, string)>): string
    decreases |entries|
  {
    if entries == [] then "" else Line(entries[0].0, entries[0].1) + Render(entries[1..])
  }

  /** The pairs the file holds, key by key in `Keys` order. */
  function Entries(c: Credentials): seq<(string, string)> {
    [("TWITTER_CK", c.twitterCK), ("TWITTER_CS", c.twitterCS),
     ("TWITTER_AT", c.twitterAT), ("TWITTER_AS", c.twitterAS),
     ("SPOTIFY_CLIENT_ID", c.spotifyClientId), ("SPOTIFY_CLIENT_SECRET", c.spotifyClientSecret),
     ("SPOTIFY_REFRESH_TOKEN", c.spotifyRefreshToken)]
  }

  /** Line order: the text is the seven pairs rendered in `Keys` order. */
  lemma EnvTextIsRendered(c: Credentials)
    ensures EnvText(c) == Render(Entries(c))
  {
    var es := Entries(c);
    assert es[7..] == [];
    assert es[6..][1..] == es[7..];
    assert es[5..][1..] == es[6..];
    assert es[4..][1..] == es[5..];
    assert es[3..][1..] == es[4..];
    assert es[2..][1..] == es[3..];
    assert es[1..][1..] == es[2..];
    var last := Line("SPOTIFY_REFRESH_TOKEN", c.spotifyRefreshToken);
    assert Render(es[6..]) == last + "" == last;
    assert Render(es[5..]) == Line("SPOTIFY_CLIENT_SECRET", c.spotifyClientSecret) + Render(es[6..]);
    assert Render(es[4..]) == Line("SPOTIFY_CLIENT_ID", c.spotifyClientId) + Render(es[5..]);
    assert Render(es[3..]) == Line("TWITTER_AS", c.twitterAS) + Render(es[4..]);
    assert Render(es[2..]) == Line("TWITTER_AT", c.twitterAT) + Render(es[3..]);
    assert Render(es[1..]) == Line("TWITTER_CS", c.twitterCS) + Render(es[2..]);
    assert Render(es) == Line("TWITTER_CK", c.twitterCK) + Render(es[1..]);
  }

  /** The position of the first `ch` in `s`, or `|s|` when there is none. */
  function IndexOf(s: string, ch: char): (i: nat)
    ensures i <= |s|
    ensures i < |s| ==> s[i] == ch
    ensures forall k :: 0 <= k < i ==> s[k] != ch
    decreases |s|
  {
    if s == [] then 0
    else if s[0] == ch then 0
    else 1 + IndexOf(s[1..], ch)
  }

  /** The position of `ch` right after a prefix free of it. */
  lemma IndexAfter(a: string, ch: char, rest: string)
    requires ch !in a
    ensures IndexOf(a + [ch] + rest, ch) == |a|
  {
    var s := a + [ch] + rest;
    assert s[|a|] == ch;
    assert forall k :: 0 <= k < |a| ==> s[k] == a[k];
  }

  /** The text split into lines at each newline; a last line without a
      newline is kept. */
  function Lines(s: string): seq<string>
    decreases |s|
  {
    if s == [] then []
    else
      var i := IndexOf(s, '\n');
      if i == |s| then [s] else [s[..i]] + Lines(s[i + 1..])
  }

  /** A `KEY=value` line split at its first `=`; None for a line without one. */
  function ParseLine(line: string): (r: Option<(string, string)>)
    ensures r.Some? <==> '=' in line
    ensures r.Some? ==> line == r.value.0 + "=" + r.value.1 && '=' !in r.value.0
  {
    var i := IndexOf(line, '=');
    if i == |line| then None
    else
      assert line == line[..i] + "=" + line[i + 1..];
      Some((line[..i], line[i + 1..]))
  }

  /** The pairs of every non-empty line, in order; None if a line is not a pair. */
  function ParseLines(lines: seq<string>): Option<seq<(string, string)>>
    decreases |lines|
  {
    if lines == [] then Some([])
    else if lines[0] == "" then ParseLines(lines[1..])
    else
      match ParseLine(lines[0])
      case None => None
      case Some(kv) =>
        match ParseLines(lines[1..])
        case None => None
        case Some(rest) => Some([kv] + rest)
  }

  function Parse(text: string): Option<seq<(string, string)>> {
    ParseLines(Lines(text))
  }

  /** A key has no `=` and no newline; a value has no newline (it may hold `=`). */
  predicate Plain(entries: seq<(string, string)>) {
    forall k :: 0 <= k < |entries| ==>
      '=' !in entries[k].0 && '\n' !in entries[k].0 && '\n' !in entries[k].1
  }

  /** Rendered pairs parse back to the same pairs, in the same order. */
  lemma {:induction false} ParseRender(entries: seq<(string, string)>)
    requires Plain(entries)
    ensures Parse(Render(entries)) == Some(entries)
  {
    if entries != [] {
      var key, value := entries[0].0, entries[0].1;
      var line := key + "=" + value;
      assert '\n' !in line;
      assert Render(entries) == line + ['\n'] + Render(entries[1..]);
      IndexAfter(line, '\n', Render(entries[1..]));
      assert (line + ['\n'] + Render(entries[1..]))[..|line|] == line;
      assert (line + ['\n'] + Render(entries[1..]))[|line| + 1..] == Render(entries[1..]);
      assert Lines(Render(entries)) == [line] + Lines(Render(entries[1..]));
      IndexAfter(key, '=', value);
      assert line[..|key|] == key;
      assert line[|key| + 1..] == value;
      assert ParseLine(line) == Some((key, value));
      assert Plain(entries[1..]) by {
        forall k | 0 <= k < |entries[1..]|
          ensures '=' !in entries[1..][k].0 && '\n' !in entries[1..][k].0 && '\n' !in entries[1..][k].1
        {
          assert entries[1..][k] == entries[k + 1];
        }
      }
      ParseRender(entries[1..]);
      assert ([line] + Lines(Render(entries[1..])))[1..] == Lines(Render(entries[1..]));
      assert [(key, value)] + entries[1..] == entries;
    }
  }

  /** The key/value map a list of pairs loads into; a later pair wins. */
  function ToMap(entries: seq<(string, string)>): map<string, string>
    decreases |entries|
  {
    if entries == [] then map[]
    else ToMap(entries[..|entries| - 1])[entries[|entries| - 1].0 := entries[|entries| - 1].1]
  }

  /** The credentials held by a loaded map, when every key is present. */
  function FromMap(m: map<string, string>): Option<Credentials> {
    if && "TWITTER_CK" in m && "TWITTER_CS" in m && "TWITTER_AT" in m && "TWITTER_AS" in m
       && "SPOTIFY_CLIENT_ID" in m && "SPOTIFY_CLIENT_SECRET" in m && "SPOTIFY_REFRESH_TOKEN" in m
    then
      Some(Credentials(m["TWITTER_CK"], m["TWITTER_CS"], m["TWITTER_AT"], m["TWITTER_AS"],
                       m["SPOTIFY_CLIENT_ID"], m["SPOTIFY_CLIENT_SECRET"], m["SPOTIFY_REFRESH_TOKEN"]))
    else None
  }

  /** Reading the text back: parse the lines, load the map, pick the seven keys. */
  function Load(text: string): Option<Credentials> {
    match Parse(text)
    case None => None
    case Some(entries) => FromMap(ToMap(entries))
  }

  /** No configuration value contains a newline. */
  predicate SingleLine(c: Credentials) {
    forall k :: 0 <= k < |Keys| ==> '\n' !in Values(c)[k]
  }

  /** No key occurs twice. */
  predicate DistinctKeys(entries: seq<(string, string)>) {
    forall i, j :: 0 <= i < j < |entries| ==> entries[i].0 != entries[j].0
  }

  /** With distinct keys, the loaded map holds every pair. */
  lemma {:induction false} ToMapHolds(entries: seq<(string, string)>)
    requires DistinctKeys(entries)
    ensures forall k :: 0 <= k < |entries| ==>
              entries[k].0 in ToMap(entries) && ToMap(entries)[entries[k].0] == entries[k].1
  {
    if entries != [] {
      var init := entries[..|entries| - 1];
      assert DistinctKeys(init) by {
        forall i, j | 0 <= i < j < |init| ensures init[i].0 != init[j].0 {
          assert init[i] == entries[i] && init[j] == entries[j];
        }
      }
      ToMapHolds(init);
      forall k | 0 <= k < |entries| - 1
        ensures entries[k].0 in ToMap(entries) && ToMap(entries)[entries[k].0] == entries[k].1
      {
        assert init[k] == entries[k];
        assert entries[k].0 != entries[|entries| - 1].0;
      }
    }
  }

  /** The pairs of `c` map every key to its value. */
  lemma EntriesMap(c: Credentials)
    ensures var m := ToMap(Entries(c));
            forall k :: 0 <= k < |Keys| ==> Keys[k] in m && m[Keys[k]] == Values(c)[k]
  {
    var es := Entries(c);
    assert forall k :: 0 <= k < |Keys| ==> es[k] == (Keys[k], Values(c)[k]);
    assert DistinctKeys(es) by {
      forall i, j | 0 <= i < j < |es| ensures es[i].0 != es[j].0 {
        assert es[i].0 == Keys[i] && es[j].0 == Keys[j];
        assert |Keys[i]| != |Keys[j]| || Keys[i][8] != Keys[j][8] || Keys[i][9] != Keys[j][9];
      }
    }
    ToMapHolds(es);
  }

  /** Round trip: the file written for `c` loads back as `c`, so the refresh
      token and the client id and secret are the ones that were saved. */
  lemma LoadEnvText(c: Credentials)
    requires SingleLine(c)
    ensures Load(EnvText(c)) == Some(c)
  {
    EnvTextIsRendered(c);
    var es := Entries(c);
    assert forall k :: 0 <= k < |Keys| ==> es[k] == (Keys[k], Values(c)[k]);
    assert Plain(es);
    ParseRender(Entries(c));
    assert Parse(EnvText(c)) == Some(Entries(c));
    EntriesMap(c);
    var m := ToMap(Entries(c));
    assert m[Keys[0]] == c.twitterCK && m[Keys[1]] == c.twitterCS;
    assert m[Keys[2]] == c.twitterAT && m[Keys[3]] == c.twitterAS;
    assert m[Keys[4]] == c.spotifyClientId && m[Keys[5]] == c.spotifyClientSecret;
    assert m[Keys[6]] == c.spotifyRefreshToken;
  }
}
