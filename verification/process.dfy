/** External processes and the progress channel, as values.

    A launched command is recorded as its argv and working directory; what it does is
    decided by a `Launcher` oracle, so every possible exit of every tool is covered.
    The progress channel is the ordered list of events its single producer performed:
    sends, then the close that `defer close(progress)` performs on return. */
module Process {
  import opened Wrappers
  import opened Paths

  /** `exec.Command(argv[0], argv[1..]...)` with `cmd.Dir`; `None` inherits the
      caller's working directory. */
  datatype Cmd = Cmd(argv: seq<string>, dir: Option<Path>)

  /** How a launched process ended: its captured standard output on a zero exit, or the
      Go error value's text (for instance `exit status 1`). */
  datatype ExitResult = Exited(stdout: string) | Failed(err: string)

  type Launcher = Cmd -> ExitResult

  predicate AllSucceed(run: Launcher, cmds: seq<Cmd>) {
    forall i | 0 <= i < |cmds| :: run(cmds[i]).Exited?
  }

  /** The commands a sequential runner launches from `cmds` when it stops at the first
      failing one: every command up to and including that one, or all of them. */
  function UntilFailure(run: Launcher, cmds: seq<Cmd>): seq<Cmd>
    decreases |cmds|
  {
    if |cmds| == 0 then []
    else if run(cmds[0]).Failed? then [cmds[0]]
    else [cmds[0]] + UntilFailure(run, cmds[1..])
  }

  /** What the runner launches is a prefix of the list in which every command but the
      last succeeded; it is the whole list exactly when every command succeeds, and
      otherwise it ends on a failing command. */
  lemma {:induction false} UntilFailureStopsAtFailure(run: Launcher, cmds: seq<Cmd>)
    ensures var l := UntilFailure(run, cmds);
            && |l| <= |cmds| && l == cmds[..|l|]
            && (forall i | 0 <= i < |l| - 1 :: run(l[i]).Exited?)
            && (l == cmds && AllSucceed(run, l) <==> AllSucceed(run, cmds))
            && (!AllSucceed(run, cmds) ==> |l| > 0 && run(l[|l| - 1]).Failed?)
    decreases |cmds|
  {
    if |cmds| > 0 && run(cmds[0]).Exited? {
      var rest := UntilFailure(run, cmds[1..]);
      UntilFailureStopsAtFailure(run, cmds[1..]);
      assert cmds == [cmds[0]] + cmds[1..];
      assert AllSucceed(run, cmds) <==> AllSucceed(run, cmds[1..]) by {
        if AllSucceed(run, cmds[1..]) {
          forall i | 0 <= i < |cmds| ensures run(cmds[i]).Exited? {
            if i > 0 { assert cmds[i] == cmds[1..][i - 1]; }
          }
        }
      }
      assert ([cmds[0]] + rest == cmds && AllSucceed(run, [cmds[0]] + rest)) <==> (rest == cmds[1..] && AllSucceed(run, rest)) by {
        if [cmds[0]] + rest == cmds { assert rest == cmds[1..]; }
        if AllSucceed(run, rest) {
          forall i | 0 <= i < |[cmds[0]] + rest| ensures run(([cmds[0]] + rest)[i]).Exited? {
            if i > 0 { assert ([cmds[0]] + rest)[i] == rest[i - 1]; }
          }
        }
        if AllSucceed(run, [cmds[0]] + rest) {
          forall i | 0 <= i < |rest| ensures run(rest[i]).Exited? {
            assert rest[i] == ([cmds[0]] + rest)[i + 1];
          }
        }
      }
    }
  }

  /** The runner over one or two commands, spelled out. */
  lemma UntilFailureOfOneOrTwo(run: Launcher, a: Cmd, b: Cmd)
    ensures UntilFailure(run, [a]) == [a]
    ensures UntilFailure(run, [a, b]) == if run(a).Failed? then [a] else [a, b]
  {
    assert [a, b][1..] == [b];
    assert [b][1..] == [];
    assert [a][1..] == [];
  }

  datatype Event = Send(msg: string) | Close

  function Sends(msgs: seq<string>): (events: seq<Event>)
    ensures |events| == |msgs|
    ensures forall i | 0 <= i < |msgs| :: events[i] == Send(msgs[i])
  {
    if |msgs| == 0 then [] else [Send(msgs[0])] + Sends(msgs[1..])
  }

  /** What a producer that sends `msgs` and then returns through `defer close` leaves
      on the channel. */
  function Stream(msgs: seq<string>): seq<Event> {
    Sends(msgs) + [Close]
  }

  function CloseCount(events: seq<Event>): nat {
    if |events| == 0 then 0
    else (if events[0].Close? then 1 else 0) + CloseCount(events[1..])
  }

  /** The channel was closed exactly once, and nothing was sent after the close. */
  predicate ClosedOnce(events: seq<Event>) {
    |events| > 0 && events[|events| - 1] == Close && CloseCount(events) == 1
  }

  /** The consumer's `for update := range progress` loop: it reads messages until the
      channel is closed; `None` means it would still be blocked waiting. */
  function Drain(events: seq<Event>): Option<seq<string>> {
    if |events| == 0 then None
    else if events[0].Close? then Some([])
    else match Drain(events[1..])
      case None => None
      case Some(rest) => Some([events[0].msg] + rest)
  }

  /** A stream is closed exactly once, and a consumer draining it terminates having
      read exactly the sent messages, in order. */
  lemma {:induction false} StreamDrains(msgs: seq<string>)
    ensures ClosedOnce(Stream(msgs))
    ensures Drain(Stream(msgs)) == Some(msgs)
    decreases |msgs|
  {
    if |msgs| == 0 {
      assert Stream(msgs) == [Close];
    } else {
      assert Stream(msgs) == [Send(msgs[0])] + Stream(msgs[1..]);
      assert Stream(msgs)[1..] == Stream(msgs[1..]);
      StreamDrains(msgs[1..]);
      assert [msgs[0]] + msgs[1..] == msgs;
    }
  }
}
