/**
  The commands the loop sends to the music daemon, and the shape of one
  session: connect, authenticate when a password is set, the playback
  commands, disconnect.
 */
module Daemon {
  import opened Wrappers

  datatype Command =
    | Connect
    | Password(secret: string)
    | Clear
    | Load(name: string)
    | Shuffle
    | Play
    | Pause
    | Disconnect

  /** The commands the loop issues inside a `try` that catches `CommandError`.
      The others are issued outside any `try` and are taken to succeed. */
  predicate Fallible(c: Command) {
    c.Clear? || c.Load? || c.Shuffle? || c.Play?
  }

  /** The commands that may stand between opening and closing a session. */
  predicate IsPlaybackCommand(c: Command) {
    !(c.Connect? || c.Password? || c.Disconnect?)
  }

  /** Appended to a playlist name to ask for its shuffled variant. */
  const ShuffleSuffix := "[[s]]"

  /** `connect()`, then `password(p)` when a password was read at startup. */
  function Opening(password: Option<string>): seq<Command> {
    if password.Some? then [Connect, Password(password.value)] else [Connect]
  }

  /** A whole session around the playback commands `body`. */
  function Session(password: Option<string>, body: seq<Command>): seq<Command> {
    Opening(password) + body + [Disconnect]
  }

  /** `cmds` is one session: it opens as `Opening(password)` says, closes with
      `Disconnect`, and holds only playback commands in between. */
  predicate IsSession(cmds: seq<Command>, password: Option<string>) {
    var k := |Opening(password)|;
    && |cmds| > k
    && cmds[..k] == Opening(password)
    && cmds[|cmds| - 1] == Disconnect
    && forall i :: k <= i < |cmds| - 1 ==> IsPlaybackCommand(cmds[i])
  }

  /** Wrapping playback commands in a session gives a well-formed session whose
      inner part is exactly those commands. */
  lemma SessionWellFormed(password: Option<string>, body: seq<Command>)
    requires forall c :: c in body ==> IsPlaybackCommand(c)
    ensures var cmds := Session(password, body);
      && IsSession(cmds, password)
      && cmds[|Opening(password)|..|cmds| - 1] == body
  {
    var cmds := Session(password, body);
    var k := |Opening(password)|;
    assert cmds[..k] == Opening(password);
    assert cmds[k..|cmds| - 1] == body;
    forall i | k <= i < |cmds| - 1
      ensures IsPlaybackCommand(cmds[i])
    {
      assert cmds[i] == body[i - k];
    }
  }

  /** `a` can be obtained from `b` by deleting elements: its commands come in `b`'s order. */
  predicate IsSubsequence(a: seq<Command>, b: seq<Command>)
    decreases |b|
  {
    if a == [] then true
    else if b == [] then false
    else (a[0] == b[0] && IsSubsequence(a[1..], b[1..])) || IsSubsequence(a, b[1..])
  }

  /** A subsequence stays one when both sides gain the same first element. */
  lemma SubsequenceKeep(x: Command, a: seq<Command>, b: seq<Command>)
    requires IsSubsequence(a, b)
    ensures IsSubsequence([x] + a, [x] + b)
  {
    assert ([x] + a)[1..] == a;
    assert ([x] + b)[1..] == b;
  }

  /** A subsequence stays one when the longer side gains a first element. */
  lemma SubsequenceSkip(x: Command, a: seq<Command>, b: seq<Command>)
    requires IsSubsequence(a, b)
    ensures IsSubsequence(a, [x] + b)
  {
    assert ([x] + b)[1..] == b;
  }
}
