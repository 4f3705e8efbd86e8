/**
  Where the echo of a command ends, said of the text alone: the shell wraps
  what was typed at its terminal width, so the echo may span several lines.
 */
module FramerEcho {
  import opened Ansi
  import opened Framer
  import opened FramerText
  import opened Sequences
  import opened Words

  /** The lines of a wrapped echo, joined up again. */
  function Unwrapped(ls: seq<string>): string {
    if ls == [] then [] else Unwrapped(ls[..|ls| - 1]) + ls[|ls| - 1]
  }

  /** ... and as they stand in the stream. */
  function Wrapped(ls: seq<string>): string {
    if ls == [] then [] else Wrapped(ls[..|ls| - 1]) + (ls[|ls| - 1] + "\n")
  }

  predicate SingleLines(ls: seq<string>) {
    forall i :: 0 <= i < |ls| ==> '\n' !in ls[i]
  }

  predicate ProperPrefix(s: string, whole: string) {
    |s| < |whole| && whole[..|s|] == s
  }

  /** The first `n` of the lines leave the echo unfinished. */
  predicate Unfinished(cfg: Config, ls: seq<string>, n: nat)
    requires n <= |ls|
  {
    forall k :: 0 < k <= n ==> ProperPrefix(Unwrapped(ls[..k]), cfg.echo)
  }

  /** A framer just made, with a text in its buffer. */
  function Made(text: string): State {
    State(Echo, text, false, [], [])
  }

  /** ... or after some lines of the echo. */
  function Seen(text: string, seen: string): State {
    State(Echo, text, false, [], seen)
  }

  lemma EchoTakes(cfg: Config, line: string, rest: string, seen: string)
    requires '\n' !in line
    ensures var text := line + "\n" + rest;
      && Newline(text) == |line| < |text|
      && TakeLine(cfg, Seen(text, seen)).1
         == if ProperPrefix(seen + line, cfg.echo) then Seen(rest, seen + line) else State(Stream, rest, false, [], seen + line)
  {
    NoNewline(line);
    NewlineConcat(line, "\n" + rest);
    assert line + "\n" + rest == line + ("\n" + rest);
    var text := line + "\n" + rest;
    assert text[..|line|] == line && text[|line| + 1..] == rest;
    hide Newline;
  }

  lemma AfterEchoTakes(cfg: Config, line: string, rest: string, seen: string)
    requires '\n' !in line
    ensures AfterEcho(cfg, Seen(line + "\n" + rest, seen))
         == if ProperPrefix(seen + line, cfg.echo) then AfterEcho(cfg, Seen(rest, seen + line)) else Some(rest)
  {
    EchoTakes(cfg, line, rest, seen);
    hide TakeLine, Newline, ProperPrefix;
  }

  lemma WrappedLast(ls: seq<string>, n: nat)
    requires n < |ls|
    ensures Wrapped(ls[..n + 1]) == Wrapped(ls[..n]) + (ls[n] + "\n")
    ensures Unwrapped(ls[..n + 1]) == Unwrapped(ls[..n]) + ls[n]
  {
    assert ls[..n + 1][..n] == ls[..n];
  }

  /** Lines that leave the echo unfinished are swallowed. */
  lemma {:induction false} EchoSwallows(cfg: Config, ls: seq<string>, n: nat, rest: string)
    requires n <= |ls| && SingleLines(ls) && Unfinished(cfg, ls, n)
    ensures AfterEcho(cfg, Made(Wrapped(ls[..n]) + rest)) == AfterEcho(cfg, Seen(rest, Unwrapped(ls[..n])))
  {
    if n == 0 {
      assert ls[..0] == [] && [] + rest == rest;
    } else {
      var line := ls[n - 1];
      EchoSwallows(cfg, ls, n - 1, line + "\n" + rest);
      WrappedLast(ls, n - 1);
      AppendAssoc(Wrapped(ls[..n - 1]), line + "\n", rest);
      assert '\n' !in line && ProperPrefix(Unwrapped(ls[..n]), cfg.echo);
      hide *;
      AfterEchoTakes(cfg, line, rest, Unwrapped(ls[..n - 1]));
    }
  }

  /**
    The echo ends with the first line at which the lines so far, joined, are not
    a proper prefix of what was typed; the text is what follows that line.
   */
  lemma EchoEnds(cfg: Config, ls: seq<string>, rest: string)
    requires ls != [] && SingleLines(ls) && Unfinished(cfg, ls, |ls| - 1) && !ProperPrefix(Unwrapped(ls), cfg.echo)
    ensures AfterEcho(cfg, Made(Wrapped(ls) + rest)) == Some(rest)
  {
    var n := |ls| - 1;
    assert ls[..n + 1] == ls && '\n' !in ls[n];
    hide *;
    WrappedLast(ls, n);
    EchoSwallows(cfg, ls, n, ls[n] + "\n" + rest);
    AppendAssoc(Wrapped(ls[..n]), ls[n] + "\n", rest);
    AfterEchoTakes(cfg, ls[n], rest, Unwrapped(ls[..n]));
  }

  /** While every line leaves it unfinished, there is no text yet. */
  lemma EchoGoesOn(cfg: Config, ls: seq<string>, rest: string)
    requires SingleLines(ls) && Unfinished(cfg, ls, |ls|) && '\n' !in rest
    ensures AfterEcho(cfg, Made(Wrapped(ls) + rest)) == None
  {
    assert ls[..|ls|] == ls;
    NoNewline(rest);
    hide Wrapped, Unwrapped, Newline;
    EchoSwallows(cfg, ls, |ls|, rest);
  }

  lemma {:induction false} WrappedGrows(ls: seq<string>, k: nat)
    requires k <= |ls|
    ensures |Unwrapped(ls[..k])| <= |Unwrapped(ls)| && Unwrapped(ls)[..|Unwrapped(ls[..k])|] == Unwrapped(ls[..k])
    decreases |ls| - k
  {
    if k == |ls| {
      assert ls[..k] == ls;
    } else {
      WrappedGrows(ls, k + 1);
      WrappedLast(ls, k);
    }
  }

  /** What was typed, echoed on any number of lines of which the last is not empty, unless alone: all that follows is text. */
  lemma WholeEcho(cfg: Config, ls: seq<string>, rest: string)
    requires ls != [] && SingleLines(ls) && Unwrapped(ls) == cfg.echo && (ls[|ls| - 1] != [] || |ls| == 1)
    ensures AfterEcho(cfg, Made(Wrapped(ls) + rest)) == Some(rest)
  {
    var n := |ls| - 1;
    forall k | 0 < k <= n
      ensures ProperPrefix(Unwrapped(ls[..k]), cfg.echo)
    {
      WrappedGrows(ls, k);
      WrappedGrows(ls[..n], k);
      assert ls[..n][..k] == ls[..k] && ls[..n + 1] == ls;
      WrappedLast(ls, n);
    }
    hide Unwrapped, Wrapped;
    EchoEnds(cfg, ls, rest);
  }

  /** On one line, as a wide terminal shows it. */
  lemma EchoOnOneLine(cfg: Config, rest: string)
    requires '\n' !in cfg.echo
    ensures AfterEcho(cfg, Made(cfg.echo + "\n" + rest)) == Some(rest)
  {
    var ls := [cfg.echo];
    WrappedLast(ls, 0);
    assert ls[..0] == [] && ls[..0 + 1] == ls && [] + cfg.echo == cfg.echo && [] + (cfg.echo + "\n") == cfg.echo + "\n";
    hide Unwrapped, Wrapped;
    WholeEcho(cfg, ls, rest);
  }

  /** However such a stream is cut into reads, what comes out is the transcript of what follows the echo. */
  lemma EchoThenTranscript(cfg: Config, st: State, chunks: seq<string>, ls: seq<string>, rest: string)
    requires New(st) && chunks != [] && Clean(Flatten(chunks)).0 == Wrapped(ls) + rest
    requires ls != [] && SingleLines(ls) && Unwrapped(ls) == cfg.echo && (ls[|ls| - 1] != [] || |ls| == 1)
    requires NoPromptLine(rest)
    ensures Joined(FeedAll(cfg, [], st, chunks).0) == Joined(Transcript(cfg, rest))
  {
    WholeEcho(cfg, ls, rest);
    hide AfterEcho, Clean, Flatten, Wrapped, Unwrapped, NoPromptLine, FeedAll, Joined, Transcript;
    EveryCut(cfg, st, chunks);
  }
}
