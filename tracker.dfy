/**
  The debounce and state tracker: what one pass of the poll loop does to the
  loop's state (`last_seen_tag_id`, `seen_nones`, `playing`) and which
  commands it sends to the daemon, given the reading and which commands raise
  `CommandError` on that pass. `Run` folds it over a finite run of passes.
 */
module Tracker {
  import opened Wrappers
  import opened Playlist
  import opened Daemon

  /** One `read_no_block()` result: no tag, or a tag's identifier and stored text. */
  datatype Reading = Absent | Present(id: nat, text: Option<string>)

  /** The loop's state: the tag considered current, how many absent reads
      have been counted, and whether playback is believed to run. */
  datatype State = State(lastSeenTagId: Option<nat>, seenNones: nat, playing: bool)

  /** The state at startup. */
  const Initial := State(None, 0, false)

  /** An absent read pauses only when more than this many absences were counted before it. */
  const PauseAfter: nat := 3

  /** What one pass does: the new state and the commands sent to the daemon. */
  datatype Outcome = Outcome(state: State, commands: seq<Command>)

  /** The commands of the load's `try` block as far as they get, and whether
      the block ran to its end. */
  datatype Attempt = Attempt(sent: seq<Command>, ok: bool)

  /** One pass's input: the reading, and the commands that raise `CommandError`
      if they are sent on that pass. */
  datatype Event = Event(reading: Reading, failing: set<Command>)

  /** The `try` block for a new tag: clear the queue, load the shuffled
      variant and turn shuffle on, load the plain playlist if either of those
      raised, then play. The first command error that is not caught by the
      inner fallback ends the block. */
  function LoadSequence(name: string, failing: set<Command>): Attempt {
    var shuffled := Load(name + ShuffleSuffix);
    if Clear in failing then Attempt([Clear], false)
    else
      var tried := if shuffled in failing then [shuffled] else [shuffled, Shuffle];
      var fallback := shuffled in failing || Shuffle in failing;
      var loaded := if fallback then tried + [Load(name)] else tried;
      if fallback && Load(name) in failing then Attempt([Clear] + loaded, false)
      else Attempt([Clear] + loaded + [Play], Play !in failing)
  }

  /** One pass of the poll loop. An absent read keeps the current tag and
      counts one more absence; a present read makes its tag the current one.
      No pass counts more than one absence, and every pass keeps `Consistent`. */
  function Step(s: State, r: Reading, failing: set<Command>, password: Option<string>): (o: Outcome)
    ensures r.Absent? ==> o.state.lastSeenTagId == s.lastSeenTagId && o.state.seenNones == s.seenNones + 1
    ensures r.Present? ==> o.state.lastSeenTagId == Some(r.id)
    ensures o.state.seenNones <= s.seenNones + 1
    ensures Consistent(s) ==> Consistent(o.state)
  {
    match r
    case Absent =>
      if s.seenNones > PauseAfter && s.playing then
        Outcome(State(s.lastSeenTagId, s.seenNones + 1, false), Session(password, [Pause]))
      else
        Outcome(s.(seenNones := s.seenNones + 1), [])
    case Present(id, text) =>
      if Some(id) != s.lastSeenTagId then
        var a := LoadSequence(PlaylistName(id, text), failing);
        var next := if a.ok then s.(playing := true, seenNones := 0) else s;
        Outcome(next.(lastSeenTagId := Some(id)), Session(password, a.sent))
      else if !s.playing then
        var next := if Play in failing then s else s.(playing := true, seenNones := 0);
        Outcome(next, Session(password, [Play]))
      else
        Outcome(s.(seenNones := 0), [])
  }

  /** A finite run of passes from `s`: the final state and every command sent,
      in order. A run counts at most one absence per pass, and every state it
      reaches from a consistent state is consistent. */
  function Run(s: State, events: seq<Event>, password: Option<string>): (o: Outcome)
    ensures o.state.seenNones <= s.seenNones + |events|
    ensures Consistent(s) ==> Consistent(o.state)
    decreases |events|
  {
    if events == [] then Outcome(s, [])
    else
      var before := Run(s, events[..|events| - 1], password);
      var e := events[|events| - 1];
      var last := Step(before.state, e.reading, e.failing, password);
      Outcome(last.state, before.commands + last.commands)
  }

  /** Playback is only believed to run while some tag is current, and never
      with more absences counted than the pass that pauses would see. */
  predicate Consistent(s: State) {
    s.playing ==> s.lastSeenTagId.Some? && s.seenNones <= PauseAfter + 1
  }

  /** `n` absent reads in a row from `s` reach a pass that starts playing with
      more than `PauseAfter` absences counted. */
  predicate PausesWithin(s: State, n: nat) {
    s.playing && n > 0 && s.seenNones + n > PauseAfter + 1
  }

  predicate AllAbsent(events: seq<Event>) {
    forall i :: 0 <= i < |events| ==> events[i].reading == Absent
  }

  // ---------------------------------------------------------------------
  // The load sequence

  /** The load sequence keeps the fixed order clear, shuffled load, shuffle,
      plain load, play, and holds playback commands only. */
  lemma LoadSequenceOrder(name: string, failing: set<Command>)
    ensures var a := LoadSequence(name, failing);
      && IsSubsequence(a.sent, [Clear, Load(name + ShuffleSuffix), Shuffle, Load(name), Play])
      && a.sent[0] == Clear
      && (forall c :: c in a.sent ==> IsPlaybackCommand(c) && !c.Pause?)
  {
    var shuffled := Load(name + ShuffleSuffix);
    var a := LoadSequence(name, failing);
    var L := Load(name);
    assert |name + ShuffleSuffix| == |name| + 5;
    assert shuffled != L;
    LoadSequenceShapes(shuffled, L);
    if Clear in failing {
      assert a.sent == [Clear];
    } else if shuffled in failing && L in failing {
      assert a.sent == [Clear, shuffled, L];
    } else if shuffled in failing {
      assert a.sent == [Clear, shuffled, L, Play];
    } else if Shuffle in failing && L in failing {
      assert a.sent == [Clear, shuffled, Shuffle, L];
    } else if Shuffle in failing {
      assert a.sent == [Clear, shuffled, Shuffle, L, Play];
    } else {
      assert a.sent == [Clear, shuffled, Shuffle, Play];
    }
  }

  /** The six ways the load sequence can end all keep the full order. Each is
      built from the back, keeping or skipping one element at a time. */
  lemma LoadSequenceShapes(shuffled: Command, plain: Command)
    ensures var full := [Clear, shuffled, Shuffle, plain, Play];
      && IsSubsequence([Clear], full)
      && IsSubsequence([Clear, shuffled, plain], full)
      && IsSubsequence([Clear, shuffled, plain, Play], full)
      && IsSubsequence([Clear, shuffled, Shuffle, plain], full)
      && IsSubsequence([Clear, shuffled, Shuffle, plain, Play], full)
      && IsSubsequence([Clear, shuffled, Shuffle, Play], full)
  {
    var L := plain;
    SubsequenceKeep(Clear, [], [shuffled, Shuffle, L, Play]);

    SubsequenceSkip(Play, [], []);
    SubsequenceKeep(L, [], [Play]);
    SubsequenceSkip(Shuffle, [L], [L, Play]);
    SubsequenceKeep(shuffled, [L], [Shuffle, L, Play]);
    SubsequenceKeep(Clear, [shuffled, L], [shuffled, Shuffle, L, Play]);

    SubsequenceKeep(Play, [], []);
    SubsequenceKeep(L, [Play], [Play]);
    SubsequenceSkip(Shuffle, [L, Play], [L, Play]);
    SubsequenceKeep(shuffled, [L, Play], [Shuffle, L, Play]);
    SubsequenceKeep(Clear, [shuffled, L, Play], [shuffled, Shuffle, L, Play]);

    SubsequenceKeep(Shuffle, [L], [L, Play]);
    SubsequenceKeep(shuffled, [Shuffle, L], [Shuffle, L, Play]);
    SubsequenceKeep(Clear, [shuffled, Shuffle, L], [shuffled, Shuffle, L, Play]);

    SubsequenceKeep(Shuffle, [L, Play], [L, Play]);
    SubsequenceKeep(shuffled, [Shuffle, L, Play], [Shuffle, L, Play]);
    SubsequenceKeep(Clear, [shuffled, Shuffle, L, Play], [shuffled, Shuffle, L, Play]);

    SubsequenceSkip(L, [Play], [Play]);
    SubsequenceKeep(Shuffle, [Play], [L, Play]);
    SubsequenceKeep(shuffled, [Shuffle, Play], [Shuffle, L, Play]);
    SubsequenceKeep(Clear, [shuffled, Shuffle, Play], [shuffled, Shuffle, L, Play]);
  }

  /** Each command of the load sequence is sent exactly when the source
      reaches it, and the block stops at the first error it does not catch. */
  lemma LoadSequenceSends(name: string, failing: set<Command>)
    ensures var a := LoadSequence(name, failing);
      var shuffled := Load(name + ShuffleSuffix);
      var fallback := shuffled in failing || Shuffle in failing;
      && Clear in a.sent
      && (shuffled in a.sent <==> Clear !in failing)
      && (Shuffle in a.sent <==> Clear !in failing && shuffled !in failing)
      && (Load(name) in a.sent <==> Clear !in failing && fallback)
      && (Play in a.sent <==> Clear !in failing && (!fallback || Load(name) !in failing))
      && (a.ok <==> Play in a.sent && Play !in failing)
      && (!a.ok ==> a.sent[|a.sent| - 1] in failing)
  {
    var shuffled := Load(name + ShuffleSuffix);
    assert |name + ShuffleSuffix| == |name| + 5;
    assert shuffled != Load(name);
    var a := LoadSequence(name, failing);
    if Clear in failing {
      assert a.sent == [Clear];
    } else if shuffled in failing || Shuffle in failing {
      var tried := if shuffled in failing then [shuffled] else [shuffled, Shuffle];
      if Load(name) in failing {
        assert a.sent == [Clear] + tried + [Load(name)];
      } else {
        assert a.sent == [Clear] + tried + [Load(name), Play];
      }
    } else {
      assert a.sent == [Clear, shuffled, Shuffle, Play];
    }
  }

  /** The load sequence completes exactly when clear succeeds, one of the two
      ways of loading succeeds, and play succeeds. */
  lemma LoadSequenceSucceeds(name: string, failing: set<Command>)
    ensures var shuffled := Load(name + ShuffleSuffix);
      LoadSequence(name, failing).ok <==>
        && Clear !in failing
        && ((shuffled !in failing && Shuffle !in failing) || Load(name) !in failing)
        && Play !in failing
  {
  }

  // ---------------------------------------------------------------------
  // One pass

  /** An absent read counts one more absence, keeps the current tag, and
      pauses (once, in its own session) exactly when more than three absences
      were already counted while playing; afterwards playback is off. */
  lemma StepAbsent(s: State, failing: set<Command>, password: Option<string>)
    ensures var o := Step(s, Absent, failing, password);
      var pausing := s.seenNones > PauseAfter && s.playing;
      && o.state.lastSeenTagId == s.lastSeenTagId
      && o.state.seenNones == s.seenNones + 1
      && (Pause in o.commands <==> pausing)
      && o.state.playing == (s.playing && !pausing)
      && o.commands == (if pausing then Session(password, [Pause]) else [])
  {
  }

  /** A new tag becomes the current tag whatever the daemon answers; playback
      is marked on and the absence count cleared only when the load sequence
      completes, and otherwise both keep their old values. */
  lemma StepNewTag(s: State, id: nat, text: Option<string>, failing: set<Command>, password: Option<string>)
    requires Some(id) != s.lastSeenTagId
    ensures var o := Step(s, Present(id, text), failing, password);
      var name := PlaylistName(id, text);
      var shuffled := Load(name + ShuffleSuffix);
      var succeeds :=
        && Clear !in failing
        && ((shuffled !in failing && Shuffle !in failing) || Load(name) !in failing)
        && Play !in failing;
      && o.state.lastSeenTagId == Some(id)
      && o.state.playing == (succeeds || s.playing)
      && o.state.seenNones == (if succeeds then 0 else s.seenNones)
      && o.commands == Session(password, LoadSequence(name, failing).sent)
  {
    LoadSequenceSucceeds(PlaylistName(id, text), failing);
  }

  /** The commands a new tag sends: one session whose inner part is the load
      sequence for the tag's playlist, in its fixed order, ending with
      `Disconnect` even when a command error was caught. */
  lemma StepNewTagCommands(s: State, id: nat, text: Option<string>, failing: set<Command>, password: Option<string>)
    requires Some(id) != s.lastSeenTagId
    ensures var o := Step(s, Present(id, text), failing, password);
      var name := PlaylistName(id, text);
      var k := |Opening(password)|;
      && IsSession(o.commands, password)
      && o.commands[k] == Clear
      && IsSubsequence(o.commands[k..|o.commands| - 1],
                       [Clear, Load(name + ShuffleSuffix), Shuffle, Load(name), Play])
  {
    var name := PlaylistName(id, text);
    LoadSequenceOrder(name, failing);
    SessionWellFormed(password, LoadSequence(name, failing).sent);
  }

  /** The same tag while paused resumes: the session holds `Play` and nothing
      else, so nothing is cleared or reloaded; success marks playback on and
      clears the count, failure leaves the state as it was. */
  lemma StepResume(s: State, text: Option<string>, failing: set<Command>, password: Option<string>)
    requires s.lastSeenTagId.Some? && !s.playing
    ensures var o := Step(s, Present(s.lastSeenTagId.value, text), failing, password);
      && o.commands == Session(password, [Play])
      && IsSession(o.commands, password)
      && o.state == (if Play in failing then s else State(s.lastSeenTagId, 0, true))
  {
    SessionWellFormed(password, [Play]);
  }

  /** The same tag while playing sends nothing and only clears the absence count. */
  lemma StepSameTagPlaying(s: State, text: Option<string>, failing: set<Command>, password: Option<string>)
    requires s.lastSeenTagId.Some? && s.playing
    ensures var o := Step(s, Present(s.lastSeenTagId.value, text), failing, password);
      o.commands == [] && o.state == State(s.lastSeenTagId, 0, true)
  {
  }

  /** After any present read, the tag read is the current tag, and the
      absence count is zero unless a command error kept its old value. */
  lemma StepRecordsTag(s: State, r: Reading, failing: set<Command>, password: Option<string>)
    requires r.Present?
    ensures var o := Step(s, r, failing, password);
      && o.state.lastSeenTagId == Some(r.id)
      && (o.state.seenNones == 0 || (o.state.seenNones == s.seenNones && o.state.playing == s.playing))
  {
  }

  /** Every pass sends either nothing or exactly one well-formed session. */
  lemma StepSessions(s: State, r: Reading, failing: set<Command>, password: Option<string>)
    ensures var o := Step(s, r, failing, password);
      o.commands == [] || IsSession(o.commands, password)
  {
    match r
    case Absent =>
      SessionWellFormed(password, [Pause]);
    case Present(id, text) =>
      if Some(id) != s.lastSeenTagId {
        StepNewTagCommands(s, id, text, failing, password);
      } else if !s.playing {
        SessionWellFormed(password, [Play]);
      }
  }

  /** Playback is marked on only by a `Play` the daemon accepted, marked off
      only by a `Pause`, and `Pause` is only sent on an absent read. */
  lemma StepPlayingChanges(s: State, r: Reading, failing: set<Command>, password: Option<string>)
    ensures var o := Step(s, r, failing, password);
      && (!s.playing && o.state.playing ==> Play in o.commands && Play !in failing)
      && (s.playing && !o.state.playing ==> Pause in o.commands)
      && (Pause in o.commands ==> r.Absent?)
  {
    match r
    case Absent =>
    case Present(id, text) =>
      if Some(id) != s.lastSeenTagId {
        LoadSequenceOrder(PlaylistName(id, text), failing);
      }
  }

  // ---------------------------------------------------------------------
  // Runs of passes

  /** The run over the first `i + 1` events is the run over the first `i`
      followed by one pass over event `i`. */
  lemma RunPrefix(s: State, events: seq<Event>, i: nat, password: Option<string>)
    requires i < |events|
    ensures var o := Run(s, events[..i], password);
      var last := Step(o.state, events[i].reading, events[i].failing, password);
      Run(s, events[..i + 1], password) == Outcome(last.state, o.commands + last.commands)
  {
    assert events[..i + 1][..i] == events[..i];
  }

  /** A run of absent reads adds its length to the count, keeps the current
      tag, and sends at most one session: a single pause, sent once the count
      before the pass exceeds three while playing. */
  lemma {:induction false} AbsentRun(s: State, events: seq<Event>, password: Option<string>)
    requires AllAbsent(events)
    ensures Run(s, events, password).state ==
      State(s.lastSeenTagId, s.seenNones + |events|, s.playing && !PausesWithin(s, |events|))
    ensures Run(s, events, password).commands ==
      (if PausesWithin(s, |events|) then Session(password, [Pause]) else [])
    decreases |events|
  {
    if events != [] {
      var init := events[..|events| - 1];
      var e := events[|events| - 1];
      assert e.reading == Absent;
      assert AllAbsent(init) by {
        forall i | 0 <= i < |init| ensures init[i].reading == Absent {
          assert init[i] == events[i];
        }
      }
      AbsentRun(s, init, password);
      var before := Run(s, init, password);
      StepAbsent(before.state, e.failing, password);
      var last := Step(before.state, Absent, e.failing, password);
      assert Run(s, events, password) == Outcome(last.state, before.commands + last.commands);
      assert before.state.lastSeenTagId == s.lastSeenTagId;
      assert before.state.seenNones == s.seenNones + |init|;
      assert |events| == |init| + 1;
      if PausesWithin(s, |init|) {
        assert last.commands == [];
        assert before.commands + [] == before.commands;
      } else if PausesWithin(s, |events|) {
        assert before.commands == [];
        assert [] + last.commands == last.commands;
      }
    }
  }

  /** However long the tag stays away, at most one `Pause` is sent. */
  lemma AbsentRunPausesOnce(s: State, events: seq<Event>, password: Option<string>)
    requires AllAbsent(events)
    ensures multiset(Run(s, events, password).commands)[Pause] <= 1
  {
    AbsentRun(s, events, password);
    if PausesWithin(s, |events|) {
      var body := Opening(password) + [Pause] + [Disconnect];
      assert Session(password, [Pause]) == body;
      assert multiset(Opening(password))[Pause] == 0;
    }
  }

  /** Starting to count from zero while playing, the pause comes with the fifth
      absent read in a row, not the fourth. */
  lemma FirstPauseOnFifthAbsence(s: State, events: seq<Event>, password: Option<string>)
    requires s.seenNones == 0 && s.playing && AllAbsent(events)
    ensures Pause in Run(s, events, password).commands <==> |events| >= 5
  {
    AbsentRun(s, events, password);
  }

  /** The current tag read again never clears or reloads: it sends a lone
      `Play` session when paused and nothing when playing. */
  lemma StepCurrentTag(s: State, text: Option<string>, failing: set<Command>, password: Option<string>)
    requires s.lastSeenTagId.Some?
    ensures var o := Step(s, Present(s.lastSeenTagId.value, text), failing, password);
      && (forall c :: c in o.commands ==> !c.Clear? && !c.Load?)
      && o.commands == (if s.playing then [] else Session(password, [Play]))
  {
    var resume := Session(password, [Play]);
    assert resume == Opening(password) + [Play, Disconnect];
    assert forall c :: c in resume ==> c in Opening(password) || c == Play || c == Disconnect;
  }

  /** Presenting a new tag twice in a row sends one load sequence: the second
      pass sends neither `Clear` nor `Load`, and nothing at all when the first
      load completed. */
  lemma SameTagTwiceLoadsOnce(s: State, id: nat, t1: Option<string>, t2: Option<string>,
                              f1: set<Command>, f2: set<Command>, password: Option<string>)
    requires Some(id) != s.lastSeenTagId
    ensures var o1 := Step(s, Present(id, t1), f1, password);
      var o2 := Step(o1.state, Present(id, t2), f2, password);
      && Clear in o1.commands
      && (forall c :: c in o2.commands ==> !c.Clear? && !c.Load?)
      && (o1.state.playing ==> o2.commands == [])
  {
    StepNewTagCommands(s, id, t1, f1, password);
    var o1 := Step(s, Present(id, t1), f1, password);
    StepRecordsTag(s, Present(id, t1), f1, password);
    StepCurrentTag(o1.state, t2, f2, password);
  }

  /** A tag that comes back after any run of absent reads is never reloaded:
      it is resumed with a lone `Play` if the absences paused playback, and
      sends nothing if they did not. */
  lemma ReturningTagIsResumed(s: State, events: seq<Event>, text: Option<string>,
                              failing: set<Command>, password: Option<string>)
    requires s.lastSeenTagId.Some? && s.playing && AllAbsent(events)
    ensures var o := Run(s, events, password);
      var back := Step(o.state, Present(s.lastSeenTagId.value, text), failing, password);
      && (forall c :: c in back.commands ==> !c.Clear? && !c.Load?)
      && back.commands == (if PausesWithin(s, |events|) then Session(password, [Play]) else [])
  {
    AbsentRun(s, events, password);
    StepCurrentTag(Run(s, events, password).state, text, failing, password);
  }
}
