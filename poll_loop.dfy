/**
  The poll loop: the process-wide state the loop updates in place, and one
  pass of its body as an imperative method that sends commands to the daemon
  one at a time. Each pass is proved to do what `Tracker.Step` says.
 */
module PollLoop {
  import opened Wrappers
  import opened Playlist
  import opened Daemon
  import opened Tracker

  class Player {
    var lastSeenTagId: Option<nat>
    var seenNones: nat
    var playing: bool
    /** Every command sent to the daemon so far, in order. */
    var trace: seq<Command>
    /** The password read at startup, if any. */
    const password: Option<string>

    /** The loop's state as a value. */
    function Snapshot(): State
      reads this
    {
      State(lastSeenTagId, seenNones, playing)
    }

    ghost predicate Valid()
      reads this
    {
      Consistent(Snapshot())
    }

    /** The state before the first pass: no current tag, nothing counted, not playing. */
    constructor (password: Option<string>)
      ensures Valid()
      ensures Snapshot() == Initial && trace == [] && this.password == password
    {
      lastSeenTagId := None;
      seenNones := 0;
      playing := false;
      trace := [];
      this.password := password;
    }

    /** Sends a command that is issued outside any `try`. */
    method Send(c: Command)
      requires !Fallible(c)
      modifies this`trace
      ensures trace == old(trace) + [c]
    {
      trace := trace + [c];
    }

    /** Sends a command inside a `try`; `raised` says whether it raised `CommandError`. */
    method Try(c: Command, failing: set<Command>) returns (raised: bool)
      requires Fallible(c)
      modifies this`trace
      ensures trace == old(trace) + [c]
      ensures raised == (c in failing)
    {
      trace := trace + [c];
      raised := c in failing;
    }

    /** Connects, and authenticates when a password is set. */
    method Open()
      modifies this`trace
      ensures trace == old(trace) + Opening(password)
    {
      Send(Connect);
      if password.Some? {
        Send(Password(password.value));
      }
    }

    /** The `try` block for a new tag: clear, load the shuffled variant and
        turn shuffle on, fall back to the plain playlist if either raised,
        then play. `ok` says whether the block ran to its end. */
    method LoadPlaylist(playlist: string, failing: set<Command>) returns (ok: bool)
      modifies this`trace
      ensures trace == old(trace) + LoadSequence(playlist, failing).sent
      ensures ok == LoadSequence(playlist, failing).ok
    {
      var raised := Try(Clear, failing);
      if raised {
        return false;
      }
      var fallback := Try(Load(playlist + ShuffleSuffix), failing);
      if !fallback {
        fallback := Try(Shuffle, failing);
      }
      if fallback {
        raised := Try(Load(playlist), failing);
        if raised {
          return false;
        }
      }
      raised := Try(Play, failing);
      ok := !raised;
    }

    /** One pass of the loop: for an absent read, pause after sustained
        absence and count it; for a new tag, load its playlist; for the
        current tag while paused, resume; for the current tag while playing,
        clear the count. */
    method Tick(reading: Reading, failing: set<Command>)
      requires Valid()
      modifies this
      ensures Valid()
      ensures Snapshot() == Step(old(Snapshot()), reading, failing, password).state
      ensures trace == old(trace) + Step(old(Snapshot()), reading, failing, password).commands
      ensures reading.Absent? ==> lastSeenTagId == old(lastSeenTagId) && seenNones == old(seenNones) + 1
      ensures reading.Present? ==> lastSeenTagId == Some(reading.id)
    {
      match reading
      case Absent =>
        NoTag(failing);
      case Present(id, text) =>
        if Some(id) != lastSeenTagId {
          NewTag(id, text, failing);
        } else if !playing {
          Resume(id, text, failing);
        } else {
          seenNones := 0;
        }
    }

    /** No tag in range: pause once more than `PauseAfter` absences were
        counted while playing, then count this one. */
    method NoTag(failing: set<Command>)
      modifies this
      ensures Snapshot() == Step(old(Snapshot()), Absent, failing, password).state
      ensures trace == old(trace) + Step(old(Snapshot()), Absent, failing, password).commands
    {
      if seenNones > PauseAfter && playing {
        Open();
        Send(Pause);
        Send(Disconnect);
        playing := false;
      }
      seenNones := seenNones + 1;
    }

    /** A tag other than the current one: load its playlist in a session of
        its own, and make it the current tag whether or not that worked. */
    method NewTag(id: nat, text: Option<string>, failing: set<Command>)
      requires Some(id) != lastSeenTagId
      modifies this
      ensures Snapshot() == Step(old(Snapshot()), Present(id, text), failing, password).state
      ensures trace == old(trace) + Step(old(Snapshot()), Present(id, text), failing, password).commands
    {
      var playlist := PlaylistName(id, text);
      ghost var a := LoadSequence(playlist, failing);
      ghost var log := trace;
      Open();
      var loaded := LoadPlaylist(playlist, failing);
      assert trace == log + Opening(password) + a.sent;
      if loaded {
        playing := true;
        seenNones := 0;
      }
      Send(Disconnect);
      lastSeenTagId := Some(id);
      assert trace == log + Opening(password) + a.sent + [Disconnect];
    }

    /** The current tag again while paused: resume playback where it stopped. */
    method Resume(id: nat, text: Option<string>, failing: set<Command>)
      requires Some(id) == lastSeenTagId && !playing
      modifies this
      ensures Snapshot() == Step(old(Snapshot()), Present(id, text), failing, password).state
      ensures trace == old(trace) + Step(old(Snapshot()), Present(id, text), failing, password).commands
    {
      Open();
      var raised := Try(Play, failing);
      if !raised {
        playing := true;
        seenNones := 0;
      }
      Send(Disconnect);
    }

    /** A finite stretch of the loop: one pass per event, in order. */
    method Poll(events: seq<Event>)
      requires Valid()
      modifies this
      ensures Valid()
      ensures Snapshot() == Run(old(Snapshot()), events, password).state
      ensures trace == old(trace) + Run(old(Snapshot()), events, password).commands
    {
      ghost var start := Snapshot();
      ghost var trace0 := trace;
      assert events[..0] == [];
      for i := 0 to |events|
        invariant Valid()
        invariant Snapshot() == Run(start, events[..i], password).state
        invariant trace == trace0 + Run(start, events[..i], password).commands
      {
        ghost var done := Run(start, events[..i], password);
        RunPrefix(start, events, i, password);
        Pass(done, trace0, events[i]);
      }
      assert events[..|events|] == events;
    }

    /** One pass over `e` after a run that has reached `done`, with every
        command of that run logged after `log`. */
    method Pass(ghost done: Outcome, ghost log: seq<Command>, e: Event)
      requires Valid() && Snapshot() == done.state && trace == log + done.commands
      modifies this
      ensures Valid()
      ensures Snapshot() == Step(done.state, e.reading, e.failing, password).state
      ensures trace == log + (done.commands + Step(done.state, e.reading, e.failing, password).commands)
    {
      ghost var last := Step(done.state, e.reading, e.failing, password);
      Tick(e.reading, e.failing);
      assert trace == log + done.commands + last.commands;
    }
  }
}
