# NFC playlist player, modelled in Dafny

`nfc_reader.py` polls an MFRC522 card reader once a second. It drives an MPD
music daemon based on which NFC tag lies on the reader:

- A new tag loads the playlist named by the tag's stored text. A tag with no
  text loads the playlist named by its identifier in upper-case hex.
- The tag that is already current resumes playback if it was paused, and
  otherwise does nothing.
- A tag that stays away for long enough pauses playback.

Daemon command errors (`musicpd.CommandError`) are caught. A caught error
never ends the loop.

The model has five modules:

- `Wrappers` (`wrappers.dfy`): `Option`, standing for Python's `None`.
- `Playlist` (`playlist.dfy`): the resolver `playlist_name`.
  - `RStrip` is `str.rstrip()`, using the whitespace of Python's `str.isspace()`.
  - `Hex` is `"%X" % id`. `ParseHex` reads a hex string back.
  - It is proved that `Hex` gives the only canonical hex spelling of the
    identifier, and that `RStrip`'s result is determined by its contract.
- `Daemon` (`daemon.dfy`): the daemon commands (`Connect`, `Password`,
  `Clear`, `Load`, `Shuffle`, `Play`, `Pause`, `Disconnect`). It also defines
  what one well-formed session looks like.
- `Tracker` (`tracker.dfy`): the pure specification of one pass of the loop.
  - `Step` takes the state (`last_seen_tag_id`, `seen_nones`, `playing`),
    one reading, the set of commands that raise `CommandError` on that pass,
    and the optional password.
  - It returns the new state and the commands sent, in order.
  - `LoadSequence` is the `try` block for a new tag.
  - `Run` folds `Step` over a finite sequence of passes.
  - The lemmas state the loop's guarantees, over one pass and over runs.
- `PollLoop` (`poll_loop.dfy`): the loop as imperative code.
  - The class `Player` holds the three globals as fields, plus `trace`, the
    log of every command sent.
  - `Tick` is one pass of the `while True` body. It sends commands one at a
    time, with the source's branches and nested `try`.
  - `Tick` is proved to do what `Step` says.
  - `Poll` runs `Tick` over a finite sequence of events and is proved to
    match `Run`.

Which commands raise is an input to each pass (`failing: set<Command>`).
Only `Clear`, `Load`, `Shuffle` and `Play` are looked up in it. These are the
only commands the source sends inside a `try`.

Behaviour that follows the code where a plain-words description of the
program might suggest otherwise:

- The pause comes on the fifth absent read in a row after the count was last
  reset to 0 while playing, not the fourth. The check `seen_nones > 3` runs before the count is incremented
  (nfc_reader.py:55, 66). `FirstPauseOnFifthAbsence` states this.
- The absence count goes back to zero on a present read only when its
  commands succeed, or when the same tag is seen while playing. After a caught
  `CommandError` it keeps its old value (nfc_reader.py:88-91, 102-105).
- The text is tested for truthiness before it is stripped (nfc_reader.py:45).
  Text made only of whitespace therefore gives the empty name `""`, not the hex
  identifier.
- The fallback to the plain playlist name happens when either the `[[s]]`
  load or `shuffle()` raises `CommandError`, whatever that error says
  (nfc_reader.py:80-84).

## Model

| member | source | states |
|---|---|---|
| `Playlist.IsSpace` | nfc_reader.py:46 | The characters `rstrip()` removes: those for which Python 3's `str.isspace()` holds (Unicode category Zs, or bidirectional class WS, B or S). It is a plain predicate with no contract; `RStrip`'s contract is stated in terms of it. |
| `Playlist.RStrip` | nfc_reader.py:46 | The result is a prefix of the text. It does not end in whitespace, and every character removed is whitespace in the sense of Python's `str.isspace()`. |
| `Playlist.RStripUnique` | nfc_reader.py:46 | Any prefix with those three properties is `RStrip`'s result, so the contract fully determines `rstrip()`. |
| `Playlist.RStripIdempotent` | nfc_reader.py:46 | Stripping an already stripped name changes nothing. |
| `Playlist.RStripAllSpace` | nfc_reader.py:46 | Text made only of whitespace strips to the empty string. |
| `Playlist.RStripKeepsContent` | nfc_reader.py:46 | Everything up to and including the last non-whitespace character is kept unchanged, including internal whitespace. |
| `Playlist.HexDigit` | nfc_reader.py:48 | Each digit `%X` writes is 0-9 or upper-case A-F. |
| `Playlist.Hex` | nfc_reader.py:48 | `"%X" % id` is non-empty and made of upper-case hex digits. It has no leading zero, except that 0 gives exactly "0". |
| `Playlist.HexRoundTrip` | nfc_reader.py:48 | Parsing the hex name as hexadecimal gives back the tag identifier. |
| `Playlist.HexUnique` | nfc_reader.py:48 | Every canonical hex string is the `%X` rendering of the number it denotes, so the rendering is the only canonical spelling. |
| `Playlist.PlaylistName` | nfc_reader.py:42-48 | With non-empty text, the name is a prefix of the text that does not end in whitespace, and everything removed is whitespace. With text `None` or `""`, the name is the canonical hex spelling of the identifier, and parsing it gives the identifier back. |
| `Playlist.PlaylistNameOfBlankText` | nfc_reader.py:45-46 | Non-empty text made only of whitespace passes the truthiness test first, so the name is `""`. |
| `Playlist.PlaylistNameExamples` | nfc_reader.py:42-48 | `"Jazz Night \n"` gives `"Jazz Night"`. Identifier 0xA1B2 without text, or with empty text, gives `"A1B2"`. |
| `Daemon.SessionWellFormed` | nfc_reader.py:75-92 | A body of playback commands, wrapped in connect, optional password and disconnect, is a well-formed session whose inner part is exactly that body. |
| `Tracker.LoadSequence` | nfc_reader.py:78-91 | The nested `try` for a new tag, as the commands it sends and whether it ran to its end. It has no contract of its own; the three `LoadSequence…` lemmas below characterise it. |
| `Tracker.Step` | nfc_reader.py:52-109 | One pass of the loop body. An absent read keeps the current tag and adds exactly 1 to the count. A present read makes its tag the current one. No pass adds more than 1 to the count, and every pass keeps `Consistent`: while playing, some tag is current and at most 4 absences are counted. |
| `Tracker.Run` | nfc_reader.py:51-111 | A finite run of passes. The count grows by at most the number of passes, and every state reached from a consistent state is consistent. |
| `Tracker.LoadSequenceOrder` | nfc_reader.py:78-86 | The new-tag commands keep the fixed order `Clear`, `Load(name+"[[s]]")`, `Shuffle`, `Load(name)`, `Play` (a subsequence of it). They start with `Clear` and never include `Pause` or session commands. |
| `Tracker.LoadSequenceSends` | nfc_reader.py:78-91 | When each step is sent. The `[[s]]` load is sent iff `Clear` succeeded. `Shuffle` is sent iff that load also succeeded. `Load(name)` is sent iff `Clear` succeeded and the `[[s]]` load or `Shuffle` raised. `Play` is sent iff `Clear` succeeded and either neither the `[[s]]` load nor `Shuffle` raised, or the plain load succeeded. The block completes iff `Play` is sent and succeeds. Otherwise the last command sent is the one that raised. |
| `Tracker.LoadSequenceSucceeds` | nfc_reader.py:78-89 | The load sequence completes iff all of these hold: `Clear` succeeds; either both the `[[s]]` load and `Shuffle` succeed or the plain load succeeds; `Play` succeeds. |
| `Tracker.StepAbsent` | nfc_reader.py:53-66 | An absent read adds exactly 1 to the count and keeps the current tag. It sends `Pause`, in a session of its own, iff more than 3 absences were counted while playing. If it pauses, `playing` is false afterwards; otherwise `playing` is unchanged. |
| `Tracker.StepNewTag` | nfc_reader.py:72-93 | A new tag becomes the current tag whatever the daemon answers. `playing := true` and the count reset happen iff the load sequence succeeds. Otherwise both keep their old values. The commands are one session around the load sequence. |
| `Tracker.StepNewTagCommands` | nfc_reader.py:74-92 | A new tag sends one well-formed session: `Connect`, `Password` only when one is set, then `Clear` first, then the loads in the fixed order, ending with `Disconnect` even after a caught error. |
| `Tracker.StepResume` | nfc_reader.py:94-106 | The current tag while paused sends exactly `Play` inside a session, never `Clear` or `Load`. Success sets `playing` and resets the count. Failure leaves the state unchanged, and `Disconnect` is still sent. |
| `Tracker.StepSameTagPlaying` | nfc_reader.py:107-109 | The current tag while playing sends nothing and only resets the count. |
| `Tracker.StepRecordsTag` | nfc_reader.py:72-109 | After any present read, the tag read is the current tag. The count is zero, unless a caught error kept both the count and `playing` at their old values. |
| `Tracker.StepSessions` | nfc_reader.py:53-109 | Every pass sends either nothing or exactly one well-formed session. |
| `Tracker.StepPlayingChanges` | nfc_reader.py:53-109 | `playing` turns true only after a `Play` the daemon accepted. It turns false only with a `Pause`. `Pause` is sent only on an absent read. |
| `Tracker.RunPrefix` | nfc_reader.py:51-111 | A helper for `Poll`'s loop: `Run`'s defining equation at a prefix, saying a run over one more event is the shorter run followed by one more pass. |
| `Tracker.AbsentRun` | nfc_reader.py:53-66 | A run of n absent reads adds n to the count and keeps the current tag. It sends one `Pause` session iff it starts playing and some pass in it begins with more than 3 counted absences; otherwise it sends nothing. |
| `Tracker.AbsentRunPausesOnce` | nfc_reader.py:55-66 | However long the tag stays away, at most one `Pause` is sent. |
| `Tracker.FirstPauseOnFifthAbsence` | nfc_reader.py:55-66 | From a count of 0 while playing, a run of absences sends `Pause` iff it has at least 5 reads. So the pause comes with the fifth read, not the fourth. |
| `Tracker.StepCurrentTag` | nfc_reader.py:94-109 | Re-reading the current tag never clears or reloads. It sends a lone `Play` session when paused and nothing when playing. |
| `Tracker.SameTagTwiceLoadsOnce` | nfc_reader.py:72-109 | Presenting a new tag twice in a row sends one load sequence. The second pass sends no `Clear` and no `Load`, and sends nothing at all if the first load succeeded. |
| `Tracker.ReturningTagIsResumed` | nfc_reader.py:53-106 | When the playing tag comes back after any run of absent reads, it is never reloaded. It gets a lone `Play` session if the absences paused playback, and nothing otherwise. |
| `PollLoop.Player.constructor` | nfc_reader.py:26-40 | At startup no tag is current, nothing is counted, playback is off and nothing has been sent. The password is fixed for the process's lifetime. |
| `PollLoop.Player.Send` | nfc_reader.py:58-62 | A command issued outside any `try` is appended to the trace and cannot raise. Only non-`Fallible` commands may be sent this way. |
| `PollLoop.Player.Try` | nfc_reader.py:79-86 | A command issued inside a `try` is appended to the trace, and it raises `CommandError` exactly when it is in this pass's `failing` set. |
| `PollLoop.Player.Open` | nfc_reader.py:75-77 | Opening a session sends `Connect`, then `Password(p)` exactly when a password is set. |
| `PollLoop.Player.LoadPlaylist` | nfc_reader.py:78-86 | The nested `try` sends exactly `LoadSequence`'s commands and reports whether it ran to its end. |
| `PollLoop.Player.NoTag` | nfc_reader.py:53-66 | The absent-read branch updates the fields and the trace exactly as `Step` says. |
| `PollLoop.Player.NewTag` | nfc_reader.py:72-93 | The new-tag branch updates the fields and the trace exactly as `Step` says. |
| `PollLoop.Player.Resume` | nfc_reader.py:94-106 | The resume branch updates the fields and the trace exactly as `Step` says. |
| `PollLoop.Player.Tick` | nfc_reader.py:52-109 | One pass sets the fields to `Step`'s new state, appends `Step`'s commands to the trace and keeps the invariant. An absent read keeps the current tag and adds one to the count. A present read always leaves its tag as the current one. |
| `PollLoop.Player.Pass` | nfc_reader.py:52-109 | One pass after a run that reached some outcome: the fields become `Step`'s state and the trace is the run's log followed by `Step`'s commands. |
| `PollLoop.Player.Poll` | nfc_reader.py:51-111 | A finite stretch of the loop leaves the fields and the trace as `Run` says, and keeps the invariant. |

## Left out

- Argument parsing and log-level validation (nfc_reader.py:10-24) are startup configuration, not loop logic.
- Reading the password file (nfc_reader.py:29-35) is file I/O. The password is a constructor parameter of type `Option<string>`.
- The `SimpleMFRC522` driver and the `musicpd.MPDClient` wire protocol (nfc_reader.py:3, 37-38) are foreign code. They are replaced by the reading passed to each pass and by the `failing` set of commands that raise on that pass.
- `time.sleep(1)` and the non-terminating `while True` (nfc_reader.py:51, 111) are not modelled. The model covers one pass (`Tick`) and finite runs of passes (`Poll`, `Run`).
- `logging` calls have no effect on state and are left out. This includes the log at nfc_reader.py:105, which reads the global `playlist`.
- `Clear`, `Load`, `Shuffle` and `Play` are taken to raise nothing but `musicpd.CommandError`, the only exception the source catches (nfc_reader.py:83, 90, 104). Any other exception, such as a dropped connection (`ConnectionError`/`OSError`), would skip the fallback and end the process. The `failing` set cannot express it, and the model does not claim the loop survives one.
- Failures of `connect`, `password`, `pause` and `disconnect` are not modelled: these commands are taken to succeed. The source calls them outside any `try`, so such an error would end the process. The model does not claim the loop survives one.
- The oracle gives one outcome per command per pass. A pass never sends the same command twice, because `name + "[[s]]"` always differs from `name`.
- Tag identifiers are natural numbers. `"%X"` on a negative number (a leading `-`) is not modelled, because the reader's identifiers are never negative.
- Strings are sequences of Unicode code points. `IsSpace` lists the characters that Python 3's `str.isspace()` accepts.
