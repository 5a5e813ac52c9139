/**
 * The body of the ticker loop in `main`: the decision, on each poll, whether
 * the profile bio is rewritten and with what, and the `last_title` cell that
 * carries over from one poll to the next.
 */
module ProfileSync {
  import opened Wrappers
  import opened Json
  import opened NowPlaying
  import opened Tokens

  /** A poll announces a track only once it has played for more than this many milliseconds. */
  const ProgressThreshold := 5000

  /** The start of every announcement: a musical note emoji and two hashtags. */
  const AnnouncementPrefix := "\U{1F3B5} #NowPlaying #np: "

  /** The bio text announcing a track: title, artist and album on one line,
      the track URL on the next. */
  function Announcement(pb: Playback): (bio: string)
    ensures |bio| >= |AnnouncementPrefix| + |pb.url| + 1
    ensures bio[..|AnnouncementPrefix|] == AnnouncementPrefix
    ensures bio[|bio| - |pb.url| - 1..] == "\n" + pb.url
  {
    var head := AnnouncementPrefix + pb.title + " / " + pb.artist + " (" + pb.album + ")";
    assert head + "\n" + pb.url == head + ("\n" + pb.url);
    head + "\n" + pb.url
  }

  /** The effect of one poll on the profile: nothing, or one UpdateProfile call. */
  datatype Action = Idle | PushBio(bio: string)

  /** The outcome of one poll: the new `last_title` and the action taken. */
  datatype Step = Step(lastTitle: string, action: Action)

  /** The condition under which a poll announces the current track. */
  predicate Announces(last: string, pb: Playback) {
    pb.isPlaying && (last == "" || pb.title != last) && pb.progress > ProgressThreshold
  }

  /** One tick of the loop, state in and state out. A playing track is
      announced exactly when nothing is held or the title differs and it has
      played for more than five seconds; its title is then held (an empty
      title empties the cell). When nothing plays and a title is held, the
      default bio is pushed and the held title is kept, not cleared. */
  function Reconcile(last: string, pb: Playback, defaultBio: string): (s: Step)
    ensures pb.isPlaying && s.action.PushBio? <==> Announces(last, pb)
    ensures pb.isPlaying && s.action.PushBio? ==> s.action.bio == Announcement(pb)
    ensures !pb.isPlaying ==> (s.action.PushBio? <==> last != "")
    ensures !pb.isPlaying && s.action.PushBio? ==> s.action.bio == defaultBio
    ensures s.lastTitle == if Announces(last, pb) then pb.title else last
  {
    if pb.isPlaying then
      if last == "" || pb.title != last then
        if pb.progress > ProgressThreshold then Step(pb.title, PushBio(Announcement(pb)))
        else Step(last, Idle)
      else Step(last, Idle)
    else if last != "" then Step(last, PushBio(defaultBio))
    else Step(last, Idle)
  }

  /** What a sequence of polls has done: the held title, the bios pushed in
      order, and the titles announced in order. */
  datatype Trace = Trace(lastTitle: string, pushes: seq<string>, announced: seq<string>)

  /** The bio an action pushes, if any. */
  function Pushed(a: Action): seq<string> {
    if a.PushBio? then [a.bio] else []
  }

  /** The loop run over the playback results of successive polls, starting
      from the held title `start`. */
  function Run(start: string, polls: seq<Playback>, defaultBio: string): (t: Trace)
    ensures |t.announced| <= |t.pushes| <= |polls|
    decreases |polls|
  {
    if polls == [] then Trace(start, [], [])
    else
      var before := Run(start, polls[..|polls| - 1], defaultBio);
      var pb := polls[|polls| - 1];
      var s := Reconcile(before.lastTitle, pb, defaultBio);
      Trace(s.lastTitle, before.pushes + Pushed(s.action),
            before.announced + (if Announces(before.lastTitle, pb) then [pb.title] else []))
  }

  /** `polls + [pb]` with `pb` as the last element. */
  lemma RunSnoc(start: string, polls: seq<Playback>, pb: Playback, defaultBio: string)
    ensures var before := Run(start, polls, defaultBio);
            var s := Reconcile(before.lastTitle, pb, defaultBio);
            Run(start, polls + [pb], defaultBio)
            == Trace(s.lastTitle, before.pushes + Pushed(s.action),
                     before.announced + (if Announces(before.lastTitle, pb) then [pb.title] else []))
  {
    assert (polls + [pb])[..|polls|] == polls;
  }

  /** The title held after any run is the last title announced, or the
      starting one when nothing was announced: it changes only through an
      announcement. */
  lemma {:induction false} HeldIsLastAnnounced(start: string, polls: seq<Playback>, defaultBio: string)
    ensures var t := Run(start, polls, defaultBio);
            t.lastTitle == if t.announced == [] then start else t.announced[|t.announced| - 1]
  {
    if polls != [] {
      HeldIsLastAnnounced(start, polls[..|polls| - 1], defaultBio);
    }
  }

  /** From the initial empty cell, `last_title` is always empty or the title
      of some announced track. */
  lemma HeldFromStart(polls: seq<Playback>, defaultBio: string)
    ensures var t := Run("", polls, defaultBio);
            t.lastTitle == "" || t.lastTitle in t.announced
  {
    HeldIsLastAnnounced("", polls, defaultBio);
  }

  /** Every pushed bio is either the default or the announcement of one of
      the polled tracks, and there are at least as many pushes as
      announcements. */
  lemma {:induction false} PushesCoverAnnouncements(start: string, polls: seq<Playback>, defaultBio: string)
    ensures var t := Run(start, polls, defaultBio);
            forall k :: 0 <= k < |t.pushes| ==>
              t.pushes[k] == defaultBio || exists j :: 0 <= j < |polls| && t.pushes[k] == Announcement(polls[j])
    ensures |Run(start, polls, defaultBio).pushes| >= |Run(start, polls, defaultBio).announced|
  {
    if polls != [] {
      var init := polls[..|polls| - 1];
      var pb := polls[|polls| - 1];
      PushesCoverAnnouncements(start, init, defaultBio);
      var t := Run(start, polls, defaultBio);
      var before := Run(start, init, defaultBio);
      var s := Reconcile(before.lastTitle, pb, defaultBio);
      assert t.pushes == before.pushes + Pushed(s.action);
      forall k | 0 <= k < |t.pushes|
        ensures t.pushes[k] == defaultBio || exists j :: 0 <= j < |polls| && t.pushes[k] == Announcement(polls[j])
      {
        if k < |before.pushes| {
          assert t.pushes[k] == before.pushes[k];
          if before.pushes[k] != defaultBio {
            var j :| 0 <= j < |init| && before.pushes[k] == Announcement(init[j]);
            assert init[j] == polls[j];
          }
        } else {
          assert t.pushes[k] == s.action.bio;
          if pb.isPlaying {
            assert t.pushes[k] == Announcement(polls[|polls| - 1]);
          }
        }
      }
    }
  }

  /** Polls that all report the same non-empty title, playing, push at most
      once: after the first announcement the title is held and matches. */
  lemma {:induction false} SameTrackPushesAtMostOnce(
    start: string, polls: seq<Playback>, title: string, defaultBio: string)
    requires title != ""
    requires forall k :: 0 <= k < |polls| ==> polls[k].isPlaying && polls[k].title == title
    ensures var t := Run(start, polls, defaultBio);
            (t.pushes == [] && t.lastTitle == start) || (|t.pushes| == 1 && t.lastTitle == title)
  {
    if polls != [] {
      SameTrackPushesAtMostOnce(start, polls[..|polls| - 1], title, defaultBio);
    }
  }

  /** Once a title is held, polls of that same track push nothing. */
  lemma {:induction false} HeldTrackPushesNothing(polls: seq<Playback>, title: string, defaultBio: string)
    requires title != ""
    requires forall k :: 0 <= k < |polls| ==> polls[k].isPlaying && polls[k].title == title
    ensures Run(title, polls, defaultBio) == Trace(title, [], [])
  {
    if polls != [] {
      HeldTrackPushesNothing(polls[..|polls| - 1], title, defaultBio);
    }
  }

  /** While nothing plays and a title is held, every poll pushes the default
      bio again and the title stays held. */
  lemma {:induction false} StoppedRepushesDefault(start: string, polls: seq<Playback>, defaultBio: string)
    requires start != ""
    requires forall k :: 0 <= k < |polls| ==> !polls[k].isPlaying
    ensures var t := Run(start, polls, defaultBio);
            t.lastTitle == start && t.announced == []
            && |t.pushes| == |polls| && forall k :: 0 <= k < |t.pushes| ==> t.pushes[k] == defaultBio
  {
    if polls != [] {
      StoppedRepushesDefault(start, polls[..|polls| - 1], defaultBio);
    }
  }

  /** While nothing plays and nothing is held, no poll pushes anything. */
  lemma {:induction false} StoppedFromEmptyIsQuiet(polls: seq<Playback>, defaultBio: string)
    requires forall k :: 0 <= k < |polls| ==> !polls[k].isPlaying
    ensures Run("", polls, defaultBio) == Trace("", [], [])
  {
    if polls != [] {
      StoppedFromEmptyIsQuiet(polls[..|polls| - 1], defaultBio);
    }
  }

  /** Pausing an announced track for any number of polls and resuming it
      pushes the default bio once per paused poll and nothing on resumption. */
  lemma PauseThenResume(pb: Playback, paused: seq<Playback>, defaultBio: string)
    requires pb.isPlaying && pb.title != ""
    requires forall k :: 0 <= k < |paused| ==> !paused[k].isPlaying
    ensures var t := Run(pb.title, paused + [pb], defaultBio);
            t.lastTitle == pb.title && t.announced == [] && |t.pushes| == |paused|
            && forall k :: 0 <= k < |t.pushes| ==> t.pushes[k] == defaultBio
  {
    StoppedRepushesDefault(pb.title, paused, defaultBio);
    RunSnoc(pb.title, paused, pb, defaultBio);
  }

  /** A track with an empty title is announced on every poll past the
      threshold: the empty held title satisfies `last_title == ""` again. */
  lemma {:induction false} EmptyTitleRepeats(polls: seq<Playback>, defaultBio: string)
    requires forall k :: 0 <= k < |polls| ==>
               polls[k].isPlaying && polls[k].title == "" && polls[k].progress > ProgressThreshold
    ensures var t := Run("", polls, defaultBio);
            t.lastTitle == "" && |t.pushes| == |polls| && |t.announced| == |polls|
  {
    if polls != [] {
      EmptyTitleRepeats(polls[..|polls| - 1], defaultBio);
    }
  }

  /** The one way a held title goes back to empty: announcing a track
      whose title is empty. */
  lemma EmptyTitleResets(last: string, pb: Playback, defaultBio: string)
    requires last != "" && pb.isPlaying && pb.title == "" && pb.progress > ProgressThreshold
    ensures Reconcile(last, pb, defaultBio) == Step("", PushBio(Announcement(pb)))
  {
  }

  /** Starting from a held title, the cell is empty after a run only if a
      track with an empty title was announced during it. */
  lemma EmptiedOnlyByEmptyTitle(start: string, polls: seq<Playback>, defaultBio: string)
    requires start != ""
    ensures Run(start, polls, defaultBio).lastTitle == "" ==> "" in Run(start, polls, defaultBio).announced
  {
    HeldIsLastAnnounced(start, polls, defaultBio);
  }

  /** The first two of the four polls below: announced at ten seconds,
      silent a minute later. */
  lemma AnnounceThenSilence(song: Playback, later: Playback, defaultBio: string)
    requires song.isPlaying && song.title == "Song A" && song.progress == 10000
    requires later == song.(progress := 70000)
    ensures Run("", [song, later], defaultBio) == Trace("Song A", [Announcement(song)], ["Song A"])
  {
    RunSnoc("", [], song, defaultBio);
    assert [] + [song] == [song];
    RunSnoc("", [song], later, defaultBio);
    assert [song] + [later] == [song, later];
  }

  /** Four polls: a track announced at ten seconds, the same track a minute
      later, then two polls with nothing playing. The bio is announced, then
      reverted to the default on each of the two stopped polls. */
  lemma FourPolls(song: Playback, later: Playback, defaultBio: string)
    requires song.isPlaying && song.title == "Song A" && song.progress == 10000
    requires later == song.(progress := 70000)
    ensures Run("", [song, later, NotPlaying, NotPlaying], defaultBio)
            == Trace("Song A", [Announcement(song), defaultBio, defaultBio], ["Song A"])
  {
    AnnounceThenSilence(song, later, defaultBio);
    RunSnoc("", [song, later], NotPlaying, defaultBio);
    assert [song, later] + [NotPlaying] == [song, later, NotPlaying];
    RunSnoc("", [song, later, NotPlaying], NotPlaying, defaultBio);
    assert [song, later, NotPlaying] + [NotPlaying] == [song, later, NotPlaying, NotPlaying];
  }

  /**
   * The state `main` keeps between ticks: `last_title`, and the bios pushed so
   * far as recorded UpdateProfile events. The history of playback results
   * seen is ghost; the object is always what `Run` makes of that history.
   */
  class BioSync {
    var lastTitle: string
    var pushes: seq<string>
    ghost var announced: seq<string>
    ghost var history: seq<Playback>
    const defaultBio: string

    ghost predicate Valid()
      reads this
    {
      Run("", history, defaultBio) == Trace(lastTitle, pushes, announced)
    }

    /** `last_title := ""` before the first tick. */
    constructor (defaultBio: string)
      ensures Valid()
      ensures this.defaultBio == defaultBio
      ensures lastTitle == "" && pushes == [] && announced == [] && history == []
    {
      this.defaultBio := defaultBio;
      lastTitle := "";
      pushes := [];
      announced := [];
      history := [];
    }

    /** One tick given the normalized playback result. */
    method Tick(pb: Playback)
      requires Valid()
      modifies this
      ensures Valid()
      ensures history == old(history) + [pb]
      ensures var s := Reconcile(old(lastTitle), pb, defaultBio);
              lastTitle == s.lastTitle && pushes == old(pushes) + Pushed(s.action)
      ensures announced == old(announced) + (if Announces(old(lastTitle), pb) then [pb.title] else [])
    {
      RunSnoc("", history, pb, defaultBio);
      if pb.isPlaying {
        if lastTitle == "" || pb.title != lastTitle {
          if pb.progress > ProgressThreshold {
            var message := Announcement(pb);
            pushes := pushes + [message];
            announced := announced + [pb.title];
            lastTitle := pb.title;
          }
        }
      } else {
        if lastTitle != "" {
          pushes := pushes + [defaultBio];
        }
      }
      history := history + [pb];
    }

    /** One tick from the decoded bodies of the two requests it makes: the
        access-token exchange, then the currently-playing query. A fatal
        outcome of either ends the process before anything changes; the
        token itself only authorizes the second request. */
    method Poll(tokenBody: ParseResult, body: ParseResult) returns (fatal: Option<Fatal>)
      requires Valid()
      modifies this
      ensures Valid()
      ensures AccessToken(tokenBody).Err? ==>
                fatal == Some(AccessToken(tokenBody).error) && history == old(history)
                && lastTitle == old(lastTitle) && pushes == old(pushes)
      ensures AccessToken(tokenBody).Ok? && Normalize(body).Err? ==>
                fatal == Some(Normalize(body).error) && history == old(history)
                && lastTitle == old(lastTitle) && pushes == old(pushes)
      ensures AccessToken(tokenBody).Ok? && Normalize(body).Ok? ==>
                fatal == None && history == old(history) + [Normalize(body).value]
    {
      var token := AccessToken(tokenBody);
      if token.Err? {
        return Some(token.error);
      }
      var np := GetNowPlaying(body);
      if np.Err? {
        return Some(np.error);
      }
      Tick(np.value);
      return None;
    }
  }
}
