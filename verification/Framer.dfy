/**
  ShellFramer of tools/chat.py: the shell's character stream in, text, error,
  stats and done events out, incrementally.
 */
module Framer {
  import opened Ansi
  import opened Sequences
  import opened Words

  datatype GenStats = GenStats(figures: seq<real>)

  datatype Event = Text(s: string) | Error(msg: string) | Stats(stats: GenStats) | Done

  /** `digit` is Python's str.isdigit on one character, `parse` the footer's regular expressions. */
  datatype Config = Config(expectFooter: bool, echo: string, digit: char -> bool, parse: string -> Option<GenStats>)

  datatype Phase = Echo | Stream | Footer | Tail

  datatype State = State(phase: Phase, buf: string, lineIsText: bool, footer: seq<string>, echoSeen: string) {
    /** The head of a line is only ever emitted while streaming. */
    predicate Valid() {
      lineIsText ==> phase == Stream
    }
  }

  const PROMPT: string := "tinyllm> "
  const FOOTER: string := "--"
  const LOG_TPL: string := "[NN:NN:NN.NNN,NNN] <"
  const ERROR_PREFIXES: seq<string> := [
    "usage:", "no model loaded", "no PSRAM", "encode:", "forward at", "model open:", "load failed:",
    "runtime:", "KV cache", "activations need", "shorten the context", "no usable clock"]

  predicate StartsWith(s: string, p: string) {
    p <= s
  }

  // ------------------------------------------------------- line classification

  predicate LogChar(cfg: Config, c: char, i: nat)
    requires i < |LOG_TPL|
  {
    if LOG_TPL[i] == 'N' then cfg.digit(c) else c == LOG_TPL[i]
  }

  /** The first characters of `s` fit the log prefix as far as both go. */
  predicate LogFits(cfg: Config, s: string) {
    forall i :: 0 <= i < |s| && i < |LOG_TPL| ==> LogChar(cfg, s[i], i)
  }

  function LogMatchLen(cfg: Config, s: string): int {
    if LogFits(cfg, s) then (if |s| < |LOG_TPL| then |s| else |LOG_TPL|) else -1
  }

  predicate IsLogLine(cfg: Config, line: string) {
    LogMatchLen(cfg, line) == |LOG_TPL|
  }

  predicate IsErrorLine(line: string) {
    exists e :: e in ERROR_PREFIXES && StartsWith(line, e)
  }

  predicate MayBeError(partial: string) {
    exists e :: e in ERROR_PREFIXES && (StartsWith(e, partial) || StartsWith(partial, e))
  }

  /** A partial line that could still turn into a control line. */
  predicate MustHold(cfg: Config, partial: string) {
    partial != [] &&
    (LogMatchLen(cfg, partial) >= 0 || StartsWith(FOOTER, partial) || StartsWith(PROMPT, partial) || MayBeError(partial))
  }

  /** A whole line that is not text, in the streaming phase. */
  predicate IsControl(cfg: Config, line: string) {
    IsLogLine(cfg, line) || (line == FOOTER && cfg.expectFooter) || IsErrorLine(line)
  }

  /** Once a partial line is known to be text it stays text. */
  lemma MustHoldMonotone(cfg: Config, a: string, b: string)
    requires a != [] && MustHold(cfg, a + b)
    ensures MustHold(cfg, a)
  {
    assert forall i :: 0 <= i < |a| ==> (a + b)[i] == a[i];
    if MayBeError(a + b) {
      var e :| e in ERROR_PREFIXES && (StartsWith(e, a + b) || StartsWith(a + b, e));
      assert StartsWith(e, a) || StartsWith(a, e);
    }
  }

  /** No proper start of a control line, nor of the prompt, is ever let go as text. */
  lemma ControlHeld(cfg: Config, line: string, k: nat)
    requires 0 < k <= |line| && (IsControl(cfg, line) || line == PROMPT)
    ensures MustHold(cfg, line[..k])
  {
    assert line == line[..k] + line[k..];
    if IsErrorLine(line) {
      var e :| e in ERROR_PREFIXES && StartsWith(line, e);
      assert MayBeError(line);
    }
    MustHoldMonotone(cfg, line[..k], line[k..]);
  }

  // ------------------------------------------------------------- the machine

  /** Index of the first newline, or |s|. */
  function Newline(s: string): (i: nat)
    ensures i <= |s| && forall j :: 0 <= j < i ==> s[j] != '\n'
    ensures i < |s| ==> s[i] == '\n'
  {
    if s == [] || s[0] == '\n' then 0 else 1 + Newline(s[1..])
  }

  /** After a complete line in the echo phase. */
  function EchoLine(cfg: Config, st: State, line: string): State {
    var seen := st.echoSeen + line;
    st.(echoSeen := seen,
        phase := if StartsWith(cfg.echo, seen) && |seen| < |cfg.echo| then Echo else Stream)
  }

  function CompleteLine(cfg: Config, st: State, bare: string): (r: (seq<Event>, State))
    ensures r.1.buf == st.buf && !r.1.lineIsText
    ensures st.phase != Echo ==> r.1.phase != Echo
  {
    var st1 := st.(lineIsText := false);
    if st.lineIsText then (if st.phase == Stream then [Text(bare + "\n")] else [], st1)
    else if IsLogLine(cfg, bare) then ([], st1)
    else if st.phase == Footer then
      var lines := st.footer + [bare];
      if |lines| == 2 then
        var p := cfg.parse(lines[0] + "\n" + lines[1]);
        (if p.Some? then [Stats(p.value)] else [], st1.(footer := lines, phase := Tail))
      else ([], st1.(footer := lines))
    else if st.phase == Tail then ([], st1)
    else if bare == FOOTER && cfg.expectFooter then ([], st1.(phase := Footer))
    else if IsErrorLine(bare) then ([Error(bare)], st1)
    else ([Text(bare + "\n")], st1)
  }

  /** The loop of feed, run until the buffer has nothing more to give. */
  function Run(cfg: Config, st: State): (r: (seq<Event>, State))
    decreases |st.buf|
  {
    var nl := Newline(st.buf);
    if nl < |st.buf| then
      var line, rest := st.buf[..nl], st.buf[nl + 1..];
      if st.phase == Echo then Run(cfg, EchoLine(cfg, st, line).(buf := rest))
      else
        var (ev, st1) := CompleteLine(cfg, st, line);
        var (evs, st2) := Run(cfg, st1.(buf := rest));
        (ev + evs, st2)
    else if st.phase == Echo then ([], st)
    else if !st.lineIsText && StartsWith(st.buf, PROMPT) then
      var (evs, st2) := Run(cfg, st.(buf := st.buf[|PROMPT|..], phase := Tail));
      ([Done] + evs, st2)
    else if st.phase == Stream && st.buf != [] && (st.lineIsText || !MustHold(cfg, st.buf)) then
      ([Text(st.buf)], st.(buf := [], lineIsText := true))
    else ([], st)
  }

  lemma {:induction false} RunValid(cfg: Config, st: State)
    requires st.Valid()
    ensures Run(cfg, st).1.Valid()
    decreases |st.buf|
  {
    var nl := Newline(st.buf);
    if nl < |st.buf| {
      var line, rest := st.buf[..nl], st.buf[nl + 1..];
      if st.phase == Echo {
        RunValid(cfg, EchoLine(cfg, st, line).(buf := rest));
      } else {
        RunValid(cfg, CompleteLine(cfg, st, line).1.(buf := rest));
      }
    } else if st.phase != Echo && !st.lineIsText && StartsWith(st.buf, PROMPT) {
      RunValid(cfg, st.(buf := st.buf[|PROMPT|..], phase := Tail));
    }
  }

  /** One read: clean what came in, then run. */
  function FeedOne(cfg: Config, raw: string, st: State, data: string): (r: (seq<Event>, string, State)) {
    var (clean, held) := Clean(raw + data);
    var (evs, st1) := Run(cfg, st.(buf := st.buf + clean));
    (evs, held, st1)
  }

  function FeedAll(cfg: Config, raw: string, st: State, chunks: seq<string>): (r: (seq<Event>, string, State))
    decreases |chunks|
  {
    if chunks == [] then ([], raw, st)
    else
      var (e1, r1, s1) := FeedOne(cfg, raw, st, chunks[0]);
      var (e2, r2, s2) := FeedAll(cfg, r1, s1, chunks[1..]);
      (e1 + e2, r2, s2)
  }

  function Flatten(chunks: seq<string>): string {
    if chunks == [] then [] else chunks[0] + Flatten(chunks[1..])
  }

  // ------------------------------------------------ events, texts joined up

  function Push(js: seq<Event>, e: Event): seq<Event> {
    if e.Text? && js != [] && js[|js| - 1].Text? then js[..|js| - 1] + [Text(js[|js| - 1].s + e.s)]
    else js + [e]
  }

  /** `evs` appended to `js`, adjacent texts joined. */
  function Fold(js: seq<Event>, evs: seq<Event>): seq<Event>
    decreases |evs|
  {
    if evs == [] then js else Fold(Push(js, evs[0]), evs[1..])
  }

  function Joined(evs: seq<Event>): seq<Event> {
    Fold([], evs)
  }

  lemma {:induction false} FoldConcat(js: seq<Event>, a: seq<Event>, b: seq<Event>)
    ensures Fold(js, a + b) == Fold(Fold(js, a), b)
    decreases |a|
  {
    if a == [] {
      assert a + b == b;
    } else {
      assert (a + b)[1..] == a[1..] + b;
      FoldConcat(Push(js, a[0]), a[1..], b);
    }
  }

  lemma PushTexts(js: seq<Event>, p: string, q: string)
    ensures Push(Push(js, Text(p)), Text(q)) == Push(js, Text(p + q))
  {
    if js != [] && js[|js| - 1].Text? {
      var t := js[|js| - 1].s;
      assert t + p + q == t + (p + q);
    }
  }

  // ------------------------------------------------------- chunk invariance

  /**
    No complete line after the echo begins with the prompt; a line whose head
    has been emitted already does not count as beginning.
   */
  predicate Quiet(cfg: Config, st: State)
    decreases |st.buf|
  {
    var nl := Newline(st.buf);
    nl == |st.buf| ||
    var line, rest := st.buf[..nl], st.buf[nl + 1..];
    if st.phase == Echo then Quiet(cfg, EchoLine(cfg, st, line).(buf := rest))
    else (st.lineIsText || !StartsWith(line, PROMPT)) && Quiet(cfg, CompleteLine(cfg, st, line).1.(buf := rest))
  }

  lemma {:induction false} NewlineConcat(a: string, b: string)
    ensures Newline(a) < |a| ==> Newline(a + b) == Newline(a)
    ensures Newline(a) == |a| ==> Newline(a + b) == |a| + Newline(b)
  {
    if a == [] {
      assert a + b == b;
    } else if a[0] != '\n' {
      NewlineConcat(a[1..], b);
      assert (a + b)[1..] == a[1..] + b;
    }
  }

  /** `x` then `y` against both at once, from the same point: same state, same joined events. */
  ghost predicate Agree(split: (seq<Event>, State), whole: (seq<Event>, State)) {
    split.1 == whole.1 && forall js :: Fold(js, split.0) == Fold(js, whole.0)
  }

  function RunTwice(cfg: Config, st: State, y: string): (seq<Event>, State) {
    var (e1, s1) := Run(cfg, st);
    var (e2, s2) := Run(cfg, s1.(buf := s1.buf + y));
    (e1 + e2, s2)
  }

  lemma AgreePrefix(ev: seq<Event>, split: (seq<Event>, State), whole: (seq<Event>, State))
    requires Agree(split, whole)
    ensures Agree((ev + split.0, split.1), (ev + whole.0, whole.1))
  {
    forall js
      ensures Fold(js, ev + split.0) == Fold(js, ev + whole.0)
    {
      FoldConcat(js, ev, split.0);
      FoldConcat(js, ev, whole.0);
    }
  }

  /** What one complete line at the front of the buffer does: its events, and the state with the line gone. */
  function TakeLine(cfg: Config, st: State): (seq<Event>, State)
    requires Newline(st.buf) < |st.buf|
  {
    var nl := Newline(st.buf);
    var line, rest := st.buf[..nl], st.buf[nl + 1..];
    if st.phase == Echo then ([], EchoLine(cfg, st, line).(buf := rest))
    else (CompleteLine(cfg, st, line).0, CompleteLine(cfg, st, line).1.(buf := rest))
  }

  lemma RunTakesLine(cfg: Config, st: State)
    requires Newline(st.buf) < |st.buf|
    ensures var (ev, st1) := TakeLine(cfg, st);
      && |st1.buf| < |st.buf|
      && (st.Valid() ==> st1.Valid())
      && Run(cfg, st) == (ev + Run(cfg, st1).0, Run(cfg, st1).1)
      && (Quiet(cfg, st) ==> Quiet(cfg, st1))
  {
    if st.phase == Echo {
      var st1 := TakeLine(cfg, st).1;
      assert [] + Run(cfg, st1).0 == Run(cfg, st1).0;
    }
  }

  lemma TakeLineAppend(cfg: Config, st: State, y: string)
    requires Newline(st.buf) < |st.buf|
    ensures Newline(st.buf + y) == Newline(st.buf)
    ensures var (ev, st1) := TakeLine(cfg, st);
      TakeLine(cfg, st.(buf := st.buf + y)) == (ev, st1.(buf := st1.buf + y))
  {
    NewlineConcat(st.buf, y);
    hide CompleteLine, Newline, StartsWith, PROMPT;
    var nl, w := Newline(st.buf), st.(buf := st.buf + y);
    assert w.buf[..nl] == st.buf[..nl] && w.buf[nl + 1..] == st.buf[nl + 1..] + y;
    if st.phase != Echo {
      CompleteLineBuf(cfg, st, w.buf, st.buf[..nl]);
    }
  }

  /** What a line does does not depend on what is behind it. */
  lemma CompleteLineBuf(cfg: Config, st: State, buf: string, line: string)
    ensures var r := CompleteLine(cfg, st, line);
      CompleteLine(cfg, st.(buf := buf), line) == (r.0, r.1.(buf := buf))
  {
    hide IsLogLine, IsErrorLine;
  }

  /** The head of a line can go out now: it is known to be text. */
  predicate KnownText(cfg: Config, st: State) {
    && st.phase == Stream && st.buf != [] && Newline(st.buf) == |st.buf|
    && (st.lineIsText || (!StartsWith(st.buf, PROMPT) && !MustHold(cfg, st.buf)))
  }

  /** The state once the line that `y` ends is gone. */
  function AfterHead(st: State, y: string): State
    requires Newline(y) < |y|
  {
    st.(buf := y[Newline(y) + 1..], lineIsText := false)
  }

  lemma TakeWhole(cfg: Config, st: State, y: string)
    requires KnownText(cfg, st) && Newline(y) < |y|
    ensures Newline(st.buf + y) == |st.buf| + Newline(y) < |st.buf + y|
    ensures TakeLine(cfg, st.(buf := st.buf + y))
         == ([Text(st.buf + (y[..Newline(y)] + "\n"))], AfterHead(st, y))
  {
    assert st.buf != [] && st.phase == Stream && Newline(st.buf) == |st.buf|;
    hide TakeLine, CompleteLine, KnownText, Newline, PROMPT;
    var k, w := Newline(y), st.(buf := st.buf + y);
    LongerIsText(cfg, st, y[..k], w.buf);
    AppendAssoc(st.buf, y[..k], "\n");
    TakeLineOf(cfg, w, st.buf, y);
  }

  /** The line that starts as `head` and ends in `y`. */
  lemma TakeLineOf(cfg: Config, st: State, head: string, y: string)
    requires st.buf == head + y && Newline(head) == |head| && Newline(y) < |y| && st.phase != Echo
    ensures Newline(head + y) == |head| + Newline(y) < |head + y|
    ensures var r := CompleteLine(cfg, st, head + y[..Newline(y)]);
      TakeLine(cfg, st) == (r.0, r.1.(buf := y[Newline(y) + 1..]))
  {
    hide TakeLine, CompleteLine, Newline;
    NewlineConcat(head, y);
    SplitConcat(head, y, Newline(y));
    SplitConcat(head, y, Newline(y) + 1);
    TakeLineIs(cfg, st, head + y[..Newline(y)], y[Newline(y) + 1..]);
  }

  lemma TakeLineIs(cfg: Config, st: State, line: string, rest: string)
    requires Newline(st.buf) < |st.buf| && st.phase != Echo
    requires st.buf[..Newline(st.buf)] == line && st.buf[Newline(st.buf) + 1..] == rest
    ensures TakeLine(cfg, st) == (CompleteLine(cfg, st, line).0, CompleteLine(cfg, st, line).1.(buf := rest))
  {
  }

  lemma TakeRest(cfg: Config, st: State, y: string)
    requires st.phase == Stream && Newline(y) < |y|
    ensures TakeLine(cfg, st.(buf := y, lineIsText := true)) == ([Text(y[..Newline(y)] + "\n")], AfterHead(st, y))
  {
    hide TakeLine, CompleteLine, EchoLine, StartsWith, IsLogLine, IsErrorLine, Newline, PROMPT, FOOTER, LOG_TPL, ERROR_PREFIXES;
    var s1, line := st.(buf := y, lineIsText := true), y[..Newline(y)];
    TextLine(cfg, s1, line);
    TakeLineIs(cfg, s1, line, y[Newline(y) + 1..]);
  }

  /** The end of a line whose head is out. */
  lemma TextLine(cfg: Config, st: State, line: string)
    requires st.phase == Stream && st.lineIsText
    ensures CompleteLine(cfg, st, line) == ([Text(line + "\n")], st.(lineIsText := false))
  {
    hide IsLogLine, IsErrorLine;
  }

  /** Text that went out before its line ended, against the same text going out with the line ... */
  lemma EmittedThenLine(cfg: Config, st: State, y: string)
    requires KnownText(cfg, st) && Newline(y) < |y|
    ensures var s1 := st.(buf := y, lineIsText := true);
      Agree(([Text(st.buf)] + Run(cfg, s1).0, Run(cfg, s1).1), Run(cfg, st.(buf := st.buf + y)))
  {
    var s1, w, l := st.(buf := y, lineIsText := true), st.(buf := st.buf + y), y[..Newline(y)] + "\n";
    TakeWhole(cfg, st, y);
    TakeRest(cfg, st, y);
    hide Run, TakeLine, KnownText, AfterHead;
    RunTakesLine(cfg, s1);
    RunTakesLine(cfg, w);
    SplitText(st.buf, l, Run(cfg, AfterHead(st, y)).0);
  }

  lemma QuietAfterHead(cfg: Config, st: State, y: string)
    requires KnownText(cfg, st) && Newline(y) < |y| && Quiet(cfg, st.(buf := st.buf + y))
    ensures Quiet(cfg, st.(buf := y, lineIsText := true))
  {
    var s1, w := st.(buf := y, lineIsText := true), st.(buf := st.buf + y);
    TakeWhole(cfg, st, y);
    TakeRest(cfg, st, y);
    RunTakesLine(cfg, w);
    hide KnownText, AfterHead, CompleteLine, StartsWith;
    assert Quiet(cfg, TakeLine(cfg, s1).1);
  }

  /** ... or with more of the line. */
  lemma EmittedThenMore(cfg: Config, st: State, y: string)
    requires KnownText(cfg, st) && Newline(y) == |y|
    ensures var s1 := st.(buf := y, lineIsText := true);
      && Agree(([Text(st.buf)] + Run(cfg, s1).0, Run(cfg, s1).1), Run(cfg, st.(buf := st.buf + y)))
      && Quiet(cfg, s1)
  {
    NewlineConcat(st.buf, y);
    LongerIsText(cfg, st, y, st.buf + y);
    var s1, s2 := st.(buf := y, lineIsText := true), st.(buf := [], lineIsText := true);
    assert Run(cfg, st.(buf := st.buf + y)) == ([Text(st.buf + y)], s2);
    if y == [] {
      assert st.buf + y == st.buf;
      assert Run(cfg, s1) == ([], s2);
    } else {
      assert Run(cfg, s1) == ([Text(y)], s2);
      SplitText(st.buf, y, []);
      assert [Text(y)] + [] == [Text(y)] && [Text(st.buf + y)] + [] == [Text(st.buf + y)];
    }
  }

  /** A line that was seen to be text early is classified as text when it ends. */
  lemma LongerIsText(cfg: Config, st: State, l: string, full: string)
    requires KnownText(cfg, st)
    ensures st.lineIsText || (!StartsWith(st.buf + l, PROMPT) && !MustHold(cfg, st.buf + l))
    ensures CompleteLine(cfg, st.(buf := full), st.buf + l)
         == ([Text(st.buf + l + "\n")], st.(buf := full, lineIsText := false))
  {
    MustHoldLonger(cfg, st.buf, l);
    PromptLonger(st.buf, l);
    ErrorMayBe(st.buf + l);
  }

  lemma MustHoldLonger(cfg: Config, a: string, l: string)
    requires a != []
    ensures MustHold(cfg, a + l) ==> MustHold(cfg, a)
  {
    if MustHold(cfg, a + l) {
      MustHoldMonotone(cfg, a, l);
    }
  }

  lemma PromptLonger(a: string, l: string)
    ensures StartsWith(a + l, PROMPT) ==> StartsWith(a, PROMPT) || StartsWith(PROMPT, a)
  {
    assert forall i :: 0 <= i < |a| ==> (a + l)[i] == a[i];
  }

  lemma ErrorMayBe(line: string)
    ensures IsErrorLine(line) ==> MayBeError(line)
  {
    if IsErrorLine(line) {
      var e :| e in ERROR_PREFIXES && StartsWith(line, e);
      assert StartsWith(e, line) || StartsWith(line, e);
    }
  }

  lemma SplitText(p: string, q: string, evs: seq<Event>)
    ensures forall js :: Fold(js, [Text(p)] + ([Text(q)] + evs)) == Fold(js, [Text(p + q)] + evs)
  {
    forall js
      ensures Fold(js, [Text(p)] + ([Text(q)] + evs)) == Fold(js, [Text(p + q)] + evs)
    {
      PushTexts(js, p, q);
      assert ([Text(p)] + ([Text(q)] + evs))[1..] == [Text(q)] + evs;
      assert ([Text(q)] + evs)[1..] == evs;
      assert ([Text(p + q)] + evs)[1..] == evs;
    }
  }

  /** The heart of it: running on a prefix and then on the rest is running on both. */
  lemma {:induction false} RunSplit(cfg: Config, st: State, y: string)
    requires st.Valid() && Quiet(cfg, st.(buf := st.buf + y))
    ensures Agree(RunTwice(cfg, st, y), Run(cfg, st.(buf := st.buf + y)))
    ensures var s1 := Run(cfg, st).1; Quiet(cfg, s1.(buf := s1.buf + y))
    decreases |st.buf|, 1
  {
    var w := st.(buf := st.buf + y);
    if Newline(st.buf) < |st.buf| {
      RunSplitLine(cfg, st, y);
    } else if st.phase == Echo {
      assert [] + Run(cfg, w).0 == Run(cfg, w).0;
    } else if !st.lineIsText && StartsWith(st.buf, PROMPT) {
      RunSplitPrompt(cfg, st, y);
    } else if st.phase == Stream && st.buf != [] && (st.lineIsText || !MustHold(cfg, st.buf)) {
      RunSplitText(cfg, st, y);
    } else {
      assert [] + Run(cfg, w).0 == Run(cfg, w).0;
    }
  }

  lemma RunSplitText(cfg: Config, st: State, y: string)
    requires KnownText(cfg, st) && (st.lineIsText || !StartsWith(st.buf, PROMPT))
    requires Quiet(cfg, st.(buf := st.buf + y))
    ensures Agree(RunTwice(cfg, st, y), Run(cfg, st.(buf := st.buf + y)))
    ensures var s1 := Run(cfg, st).1; Quiet(cfg, s1.(buf := s1.buf + y))
  {
    assert Run(cfg, st) == ([Text(st.buf)], st.(buf := [], lineIsText := true));
    assert [] + y == y;
    if Newline(y) < |y| {
      EmittedThenLine(cfg, st, y);
      QuietAfterHead(cfg, st, y);
    } else {
      EmittedThenMore(cfg, st, y);
    }
  }

  lemma RunSplitLine(cfg: Config, st: State, y: string)
    requires Newline(st.buf) < |st.buf|
    requires st.Valid() && Quiet(cfg, st.(buf := st.buf + y))
    ensures Agree(RunTwice(cfg, st, y), Run(cfg, st.(buf := st.buf + y)))
    ensures var s1 := Run(cfg, st).1; Quiet(cfg, s1.(buf := s1.buf + y))
    decreases |st.buf|, 0
  {
    var w := st.(buf := st.buf + y);
    var (ev, st1) := TakeLine(cfg, st);
    RunTakesLine(cfg, st);
    TakeLineAppend(cfg, st, y);
    RunTakesLine(cfg, w);
    RunSplit(cfg, st1, y);
    hide TakeLine, Run, Quiet, Agree;
    RunTwiceAfter(cfg, st, st1, ev, y);
    AgreePrefix(ev, RunTwice(cfg, st1, y), Run(cfg, st1.(buf := st1.buf + y)));
  }

  lemma RunTwiceAfter(cfg: Config, st: State, st1: State, ev: seq<Event>, y: string)
    requires Run(cfg, st) == (ev + Run(cfg, st1).0, Run(cfg, st1).1)
    ensures RunTwice(cfg, st, y) == (ev + RunTwice(cfg, st1, y).0, RunTwice(cfg, st1, y).1)
  {
    hide Run;
    var a, s1 := Run(cfg, st1).0, Run(cfg, st1).1;
    var b := Run(cfg, s1.(buf := s1.buf + y)).0;
    assert (ev + a) + b == ev + (a + b);
  }

  lemma RunSplitPrompt(cfg: Config, st: State, y: string)
    requires Newline(st.buf) == |st.buf| && st.phase != Echo && !st.lineIsText && StartsWith(st.buf, PROMPT)
    requires st.Valid() && Quiet(cfg, st.(buf := st.buf + y))
    ensures Agree(RunTwice(cfg, st, y), Run(cfg, st.(buf := st.buf + y)))
    ensures var s1 := Run(cfg, st).1; Quiet(cfg, s1.(buf := s1.buf + y))
    decreases |st.buf|, 0
  {
    var w, st2 := st.(buf := st.buf + y), st.(buf := st.buf[|PROMPT|..], phase := Tail);
    PromptGoesOn(cfg, st, y);
    hide Newline, StartsWith;
    RunTakesPrompt(cfg, st);
    RunTakesPrompt(cfg, w);
    QuietUnended(cfg, st2.(buf := st2.buf + y));
    RunSplit(cfg, st2, y);
    hide Run, Quiet, Agree;
    RunTwiceAfter(cfg, st, st2, [Done], y);
    AgreePrefix([Done], RunTwice(cfg, st2, y), Run(cfg, st2.(buf := st2.buf + y)));
  }

  /** After a prompt nothing quiet ends the line. */
  lemma PromptGoesOn(cfg: Config, st: State, y: string)
    requires Newline(st.buf) == |st.buf| && st.phase != Echo && !st.lineIsText && StartsWith(st.buf, PROMPT)
    requires Quiet(cfg, st.(buf := st.buf + y))
    ensures Newline(st.buf + y) == |st.buf + y| && StartsWith(st.buf + y, PROMPT)
    ensures (st.buf + y)[|PROMPT|..] == st.buf[|PROMPT|..] + y
    ensures var rest := st.buf[|PROMPT|..] + y; Newline(rest) == |rest|
  {
    var whole := st.buf + y;
    NewlineConcat(st.buf, y);
    assert whole[..|st.buf|] == st.buf;
    assert forall k :: |st.buf| <= k <= |whole| ==> StartsWith(whole[..k], PROMPT);
    assert Newline(y) == |y|;
    NoNewline(st.buf);
    NoNewline(y);
    NoNewline(st.buf[|PROMPT|..] + y);
  }

  lemma QuietUnended(cfg: Config, st: State)
    requires Newline(st.buf) == |st.buf|
    ensures Quiet(cfg, st)
  {
  }

  lemma {:induction false} NoNewline(s: string)
    ensures Newline(s) == |s| <==> '\n' !in s
  {
  }

  /** One read of `x + y` against a read of `x` and a read of `y`. */
  lemma FeedSplit(cfg: Config, raw: string, st: State, x: string, y: string)
    requires st.Valid() && Quiet(cfg, st.(buf := st.buf + Clean(raw + (x + y)).0))
    ensures var (e1, r1, s1) := FeedOne(cfg, raw, st, x);
      var (e2, r2, s2) := FeedOne(cfg, r1, s1, y);
      var (e, r, s) := FeedOne(cfg, raw, st, x + y);
      && r2 == r && Agree((e1 + e2, s2), (e, s))
      && s1.Valid() && Quiet(cfg, s1.(buf := s1.buf + Clean(r1 + y).0))
  {
    hide Clean, Quiet, Run, Agree;
    var c1, r1 := Clean(raw + x).0, Clean(raw + x).1;
    var c2 := Clean(r1 + y).0;
    AppendAssoc(raw, x, y);
    CleanChunks(raw + x, y);
    var st1 := st.(buf := st.buf + c1);
    AppendAssoc(st.buf, c1, c2);
    RunSplit(cfg, st1, c2);
    RunValid(cfg, st1);
    var (e1, s1) := Run(cfg, st1);
    var (e2, s2) := Run(cfg, s1.(buf := s1.buf + c2));
    assert FeedOne(cfg, raw, st, x) == (e1, r1, s1);
    assert FeedOne(cfg, r1, s1, y) == (e2, Clean(r1 + y).1, s2);
    assert RunTwice(cfg, st1, c2) == (e1 + e2, s2);
    var w := Run(cfg, st.(buf := st.buf + (c1 + c2)));
    assert FeedOne(cfg, raw, st, x + y) == (w.0, Clean(r1 + y).1, w.1);
    assert w == (w.0, w.1);
  }

  /** Every way of cutting a quiet stream gives the joined events, the held-back tail and the state of a single read. */
  lemma {:induction false} ChunkInvariance(cfg: Config, raw: string, st: State, chunks: seq<string>)
    requires st.Valid() && chunks != [] && Quiet(cfg, st.(buf := st.buf + Clean(raw + Flatten(chunks)).0))
    ensures var (e1, r1, s1) := FeedAll(cfg, raw, st, chunks);
      var (e, r, s) := FeedOne(cfg, raw, st, Flatten(chunks));
      r1 == r && Agree((e1, s1), (e, s))
    decreases |chunks|
  {
    hide Quiet, Clean;
    var x, y := chunks[0], Flatten(chunks[1..]);
    if |chunks| == 1 {
      assert x + y == x;
      var e1 := FeedOne(cfg, raw, st, x).0;
      assert e1 + [] == e1;
    } else {
      FeedSplit(cfg, raw, st, x, y);
      var (e1, r1, s1) := FeedOne(cfg, raw, st, x);
      ChunkInvariance(cfg, r1, s1, chunks[1..]);
      var (ea, ra, sa) := FeedAll(cfg, r1, s1, chunks[1..]);
      var (ey, ry, sy) := FeedOne(cfg, r1, s1, y);
      hide FeedOne;
      AgreePrefix(e1, (ea, sa), (ey, sy));
    }
  }

  // -------------------------------------------- exactly when it is invariant

  function CountDone(evs: seq<Event>): nat {
    if evs == [] then 0 else (if evs[0].Done? then 1 else 0) + CountDone(evs[1..])
  }

  lemma {:induction false} CountDoneConcat(a: seq<Event>, b: seq<Event>)
    ensures CountDone(a + b) == CountDone(a) + CountDone(b)
  {
    if a == [] {
      assert a + b == b;
    } else {
      assert (a + b)[1..] == a[1..] + b;
      CountDoneConcat(a[1..], b);
    }
  }

  lemma PushKeepsDone(js: seq<Event>, e: Event)
    ensures CountDone(Push(js, e)) == CountDone(js) + CountDone([e])
  {
    var n := |js| - 1;
    if e.Text? && js != [] && js[n].Text? {
      CountDoneConcat(js[..n], [js[n]]);
      CountDoneConcat(js[..n], [Text(js[n].s + e.s)]);
      assert js == js[..n] + [js[n]];
    } else {
      CountDoneConcat(js, [e]);
    }
  }

  lemma {:induction false} FoldKeepsDone(js: seq<Event>, evs: seq<Event>)
    ensures CountDone(Fold(js, evs)) == CountDone(js) + CountDone(evs)
    decreases |evs|
  {
    if evs != [] {
      PushKeepsDone(js, evs[0]);
      FoldKeepsDone(Push(js, evs[0]), evs[1..]);
      CountDoneConcat([evs[0]], evs[1..]);
      assert [evs[0]] + evs[1..] == evs;
    }
  }

  lemma TakeLineNoDone(cfg: Config, st: State)
    requires Newline(st.buf) < |st.buf|
    ensures CountDone(TakeLine(cfg, st).0) == 0
    ensures st.phase != Echo ==> TakeLine(cfg, st).1.phase != Echo && !TakeLine(cfg, st).1.lineIsText
  {
  }

  /** After the echo, how often a prompt is announced depends on the buffer and on the line being fresh, on nothing else. */
  lemma {:induction false} DoneByBuffer(cfg: Config, a: State, b: State)
    requires a.phase != Echo && b.phase != Echo && a.buf == b.buf && a.lineIsText == b.lineIsText
    ensures CountDone(Run(cfg, a).0) == CountDone(Run(cfg, b).0)
    decreases |a.buf|
  {
    if Newline(a.buf) < |a.buf| {
      RunTakesLine(cfg, a);
      RunTakesLine(cfg, b);
      TakeLineNoDone(cfg, a);
      TakeLineNoDone(cfg, b);
      var a1, b1 := TakeLine(cfg, a).1, TakeLine(cfg, b).1;
      CountDoneConcat(TakeLine(cfg, a).0, Run(cfg, a1).0);
      CountDoneConcat(TakeLine(cfg, b).0, Run(cfg, b1).0);
      DoneByBuffer(cfg, a1, b1);
    } else if !a.lineIsText && StartsWith(a.buf, PROMPT) {
      var a1 := a.(buf := a.buf[|PROMPT|..], phase := Tail);
      var b1 := b.(buf := b.buf[|PROMPT|..], phase := Tail);
      CountDoneConcat([Done], Run(cfg, a1).0);
      CountDoneConcat([Done], Run(cfg, b1).0);
      DoneByBuffer(cfg, a1, b1);
    }
  }

  lemma DoneByRest(cfg: Config, a: State, b: State)
    requires a.phase != Echo && b.phase != Echo && Newline(a.buf) < |a.buf| && Newline(b.buf) < |b.buf|
    requires a.buf[Newline(a.buf) + 1..] == b.buf[Newline(b.buf) + 1..]
    ensures CountDone(Run(cfg, a).0) == CountDone(Run(cfg, b).0)
  {
    RunTakesLine(cfg, a);
    RunTakesLine(cfg, b);
    TakeLineNoDone(cfg, a);
    TakeLineNoDone(cfg, b);
    assert TakeLine(cfg, a).1.buf == TakeLine(cfg, b).1.buf;
    hide TakeLine, Run;
    DoneByBuffer(cfg, TakeLine(cfg, a).1, TakeLine(cfg, b).1);
    CountDoneConcat(TakeLine(cfg, a).0, Run(cfg, TakeLine(cfg, a).1).0);
    CountDoneConcat(TakeLine(cfg, b).0, Run(cfg, TakeLine(cfg, b).1).0);
  }

  /** The prompt at the start of an unfinished line is announced. */
  lemma RunTakesPrompt(cfg: Config, st: State)
    requires Newline(st.buf) == |st.buf| && st.phase != Echo && !st.lineIsText && StartsWith(st.buf, PROMPT)
    ensures |PROMPT| <= |st.buf|
    ensures var st1 := st.(buf := st.buf[|PROMPT|..], phase := Tail);
      |st1.buf| < |st.buf| && Run(cfg, st) == ([Done] + Run(cfg, st1).0, Run(cfg, st1).1)
  {
    assert |PROMPT| == 9;
    hide PROMPT, FOOTER, LOG_TPL, ERROR_PREFIXES;
    hide MustHold, CompleteLine, EchoLine, Newline;
  }

  lemma RunPrompt(cfg: Config, st: State)
    requires st.phase != Echo && !st.lineIsText
    ensures Run(cfg, st.(buf := PROMPT)) == ([Done], st.(buf := [], phase := Tail))
  {
    PromptIsOneLine();
    hide PROMPT;
    assert StartsWith(PROMPT, PROMPT) && PROMPT[|PROMPT|..] == [];
    hide Run, StartsWith, Newline;
    RunTakesPrompt(cfg, st.(buf := PROMPT));
    RunEmpty(cfg, st.(buf := [], phase := Tail));
    assert [Done] + [] == [Done];
  }

  lemma PromptIsOneLine()
    ensures Newline(PROMPT) == |PROMPT| == 9
  {
    NoNewline(PROMPT);
  }

  lemma RunEmpty(cfg: Config, st: State)
    requires st.buf == []
    ensures Run(cfg, st) == ([], st)
  {
  }

  lemma PrefixOf(s: string, n: nat, p: string)
    requires n <= |s| && StartsWith(s[..n], p)
    ensures |p| <= |s| && s[..|p|] == p && s == p + s[|p|..]
  {
    assert s[..n][..|p|] == p;
  }

  /** Where a complete line begins with the prompt, cutting right after the prompt announces it once more. */
  lemma CutAfterPrompt(cfg: Config, st: State, y: string)
    requires st.phase != Echo && !st.lineIsText
    requires st.buf == PROMPT + y && Newline(y) < |y|
    ensures CountDone(RunTwice(cfg, st.(buf := PROMPT), y).0) == CountDone(Run(cfg, st).0) + 1
  {
    hide Run, StartsWith, Newline, MustHold, TakeLine;
    PromptIsOneLine();
    NewlineConcat(PROMPT, y);
    SplitConcat(PROMPT, y, Newline(y) + 1);
    RunPrompt(cfg, st);
    DoneByRest(cfg, st, st.(buf := y, phase := Tail));
    TwiceAfterPrompt(cfg, st, y);
  }

  lemma TwiceAfterPrompt(cfg: Config, st: State, y: string)
    requires Run(cfg, st.(buf := PROMPT)) == ([Done], st.(buf := [], phase := Tail))
    ensures CountDone(RunTwice(cfg, st.(buf := PROMPT), y).0) == 1 + CountDone(Run(cfg, st.(buf := y, phase := Tail)).0)
  {
    hide Run;
    assert [] + y == y;
    CountDoneConcat([Done], Run(cfg, st.(buf := y, phase := Tail)).0);
  }

  /** The prompt at the front of a complete line, cut off. */
  lemma PromptThenRest(buf: string)
    requires Newline(buf) < |buf| && StartsWith(buf[..Newline(buf)], PROMPT)
    ensures 0 < |PROMPT| <= |buf| && buf[..|PROMPT|] == PROMPT && buf == PROMPT + buf[|PROMPT|..]
    ensures Newline(buf[|PROMPT|..]) < |buf[|PROMPT|..]| && buf[|PROMPT| - 1] == ' '
  {
    PrefixOf(buf, Newline(buf), PROMPT);
    PromptIsOneLine();
    hide Newline, StartsWith;
    NewlineConcat(PROMPT, buf[|PROMPT|..]);
    assert buf[|PROMPT| - 1] == buf[..|PROMPT|][|PROMPT| - 1];
  }

  lemma {:induction false} BadCut(cfg: Config, st: State) returns (k: nat)
    requires !Quiet(cfg, st)
    ensures 0 < k <= |st.buf| && st.buf[k - 1] == ' '
    ensures CountDone(RunTwice(cfg, st.(buf := st.buf[..k]), st.buf[k..]).0) == CountDone(Run(cfg, st).0) + 1
    decreases |st.buf|
  {
    hide *;
    NotQuiet(cfg, st);
    var nl := Newline(st.buf);
    if st.phase != Echo && !st.lineIsText && StartsWith(st.buf[..nl], PROMPT) {
      PromptThenRest(st.buf);
      k := |PROMPT|;
      CutAfterPrompt(cfg, st, st.buf[k..]);
    } else {
      var st1 := TakeLine(cfg, st).1;
      RunTakesLine(cfg, st);
      var k1 := BadCut(cfg, st1);
      k := nl + 1 + k1;
      LaterCut(cfg, st, k1);
    }
  }

  lemma NotQuiet(cfg: Config, st: State)
    requires !Quiet(cfg, st)
    ensures Newline(st.buf) < |st.buf|
    ensures (st.phase != Echo && !st.lineIsText && StartsWith(st.buf[..Newline(st.buf)], PROMPT))
         || !Quiet(cfg, TakeLine(cfg, st).1)
  {
  }

  /** A cut in the rest of the buffer, seen from before its first line. */
  lemma LaterCut(cfg: Config, st: State, k1: nat)
    requires Newline(st.buf) < |st.buf|
    requires var st1 := TakeLine(cfg, st).1;
      k1 <= |st1.buf| && CountDone(RunTwice(cfg, st1.(buf := st1.buf[..k1]), st1.buf[k1..]).0) == CountDone(Run(cfg, st1).0) + 1
    ensures var k := Newline(st.buf) + 1 + k1;
      k <= |st.buf| && st.buf[..k] + st.buf[k..] == st.buf && (k1 > 0 ==> st.buf[k - 1] == TakeLine(cfg, st).1.buf[k1 - 1])
      && CountDone(RunTwice(cfg, st.(buf := st.buf[..k]), st.buf[k..]).0) == CountDone(Run(cfg, st).0) + 1
  {
    hide *;
    var nl, st1, ev := Newline(st.buf), TakeLine(cfg, st).1, TakeLine(cfg, st).0;
    var k := nl + 1 + k1;
    TakeLineBuf(cfg, st);
    var x, y, x1 := st.(buf := st.buf[..k]), st.buf[k..], st1.(buf := st1.buf[..k1]);
    TakeLineBuf(cfg, st);
    NewlinePrefix(st.buf, k);
    TakeLineBuf(cfg, x);
    LaterSlices(st.buf, nl + 1, k1);
    TakeLineAppend(cfg, x, y);
    RunTakesLine(cfg, x);
    RunTakesLine(cfg, st);
    LaterCounts(cfg, st, x, st1, x1, ev, y);
  }

  lemma LaterSlices(s: string, i: nat, k: nat)
    requires i + k <= |s|
    ensures s[i..][..k] == s[..i + k][i..] && s[i..][k..] == s[i + k..] && s[..i + k] + s[i + k..] == s
  {
  }

  lemma LaterCounts(cfg: Config, st: State, x: State, st1: State, x1: State, ev: seq<Event>, y: string)
    requires Run(cfg, st) == (ev + Run(cfg, st1).0, Run(cfg, st1).1) && Run(cfg, x) == (ev + Run(cfg, x1).0, Run(cfg, x1).1)
    requires CountDone(RunTwice(cfg, x1, y).0) == CountDone(Run(cfg, st1).0) + 1
    ensures CountDone(RunTwice(cfg, x, y).0) == CountDone(Run(cfg, st).0) + 1
  {
    hide Run, RunTwice, CountDone;
    RunTwiceAfter(cfg, x, x1, ev, y);
    CountDoneConcat(ev, RunTwice(cfg, x1, y).0);
    CountDoneConcat(ev, Run(cfg, st1).0);
  }

  lemma TakeLineBuf(cfg: Config, st: State)
    requires Newline(st.buf) < |st.buf|
    ensures TakeLine(cfg, st).1.buf == st.buf[Newline(st.buf) + 1..]
  {
  }

  lemma {:induction false} NewlinePrefix(s: string, k: nat)
    requires Newline(s) < k <= |s|
    ensures Newline(s[..k]) == Newline(s)
  {
    if s[0] != '\n' {
      NewlinePrefix(s[1..], k - 1);
      assert s[..k][1..] == s[1..][..k - 1];
    }
  }

  /** A framer that has read nothing. */
  predicate Fresh(st: State) {
    st.buf == [] && !st.lineIsText
  }

  predicate CutOf(chunks: seq<string>, data: string) {
    chunks != [] && Flatten(chunks) == data
  }

  lemma DisagreeingCut(cfg: Config, st: State, data: string) returns (chunks: seq<string>)
    requires Fresh(st) && !Quiet(cfg, st.(buf := Clean(data).0))
    ensures CutOf(chunks, data)
    ensures Joined(FeedAll(cfg, [], st, chunks).0) != Joined(FeedOne(cfg, [], st, data).0)
  {
    hide Clean, Quiet, Run;
    var z := Clean(data).0;
    var k := BadCut(cfg, st.(buf := z));
    var j := SpaceBoundary(data, k);
    var x, y := data[..j], data[j..];
    assert x + y == data;
    CleanChunks(x, y);
    assert [] + y == y;
    assert Clean(y).0 == z[k..];
    chunks := [x, y];
    assert chunks[1..] == [y] && y + [] == y && [y][1..] == [];
    assert Flatten([y]) == y;
    TwoFeeds(cfg, st, x, y);
    var one := FeedOne(cfg, [], st, data).0;
    assert [] + data == data && [] + z == z;
    assert one == Run(cfg, st.(buf := z)).0;
    hide FeedAll, FeedOne;
    FoldKeepsDone([], FeedAll(cfg, [], st, chunks).0);
    FoldKeepsDone([], one);
  }

  lemma TwoFeeds(cfg: Config, st: State, x: string, y: string)
    requires Fresh(st) && Clean(x).1 == []
    ensures FeedAll(cfg, [], st, [x, y]).0 == RunTwice(cfg, st.(buf := Clean(x).0), Clean(y).0).0
  {
    hide Clean, Run;
    assert [] + x == x && [] + y == y && [] + Clean(x).0 == Clean(x).0;
    assert [x, y][1..] == [y] && [y][1..] == [];
    var (e1, r1, s1) := FeedOne(cfg, [], st, x);
    var e2 := FeedOne(cfg, r1, s1, y).0;
    assert FeedAll(cfg, r1, s1, [y]).0 == e2 + [] == e2;
  }

  /** A line that begins at `i` begins with the prompt, and it is complete. */
  predicate PromptLineAt(buf: string, i: nat)
    requires i <= |buf|
  {
    (i == 0 || buf[i - 1] == '\n') && StartsWith(buf[i..], PROMPT) && '\n' in buf[i..]
  }

  /** What quiet means, said of the buffer alone. */
  ghost predicate NoPromptLine(buf: string) {
    forall i :: 0 <= i <= |buf| ==> !PromptLineAt(buf, i)
  }

  /** The text after the echo; None while the echo has not ended. */
  function AfterEcho(cfg: Config, st: State): Option<string>
    decreases |st.buf|
  {
    if st.phase != Echo then Some(st.buf)
    else if Newline(st.buf) == |st.buf| then None
    else AfterEcho(cfg, TakeLine(cfg, st).1)
  }

  /** No complete line after the echo begins with the prompt. */
  ghost predicate NoPromptAfterEcho(cfg: Config, st: State) {
    var t := AfterEcho(cfg, st);
    t.Some? ==> NoPromptLine(t.value)
  }

  lemma QuietStep(cfg: Config, st: State)
    requires Newline(st.buf) < |st.buf| && !st.lineIsText
    ensures var st1 := TakeLine(cfg, st).1;
      && |st1.buf| < |st.buf| && !st1.lineIsText && st1.buf == st.buf[Newline(st.buf) + 1..]
      && (st.phase != Echo ==> st1.phase != Echo)
      && (Quiet(cfg, st) <==> (st.phase != Echo ==> !StartsWith(st.buf[..Newline(st.buf)], PROMPT)) && Quiet(cfg, st1))
  {
    hide CompleteLine, StartsWith, Newline, PROMPT;
    TakeLineBuf(cfg, st);
  }

  lemma NoPromptUnended(cfg: Config, st: State)
    requires Newline(st.buf) == |st.buf|
    ensures Quiet(cfg, st) && NoPromptAfterEcho(cfg, st)
  {
    NoNewline(st.buf);
  }

  /** The recursion of quiet means just that of the text. */
  lemma {:induction false} QuietMeans(cfg: Config, st: State)
    requires !st.lineIsText
    ensures Quiet(cfg, st) <==> NoPromptAfterEcho(cfg, st)
    decreases |st.buf|
  {
    hide Quiet, NoPromptLine, StartsWith, Newline, TakeLine;
    if Newline(st.buf) == |st.buf| {
      NoPromptUnended(cfg, st);
    } else {
      QuietStep(cfg, st);
      QuietMeans(cfg, TakeLine(cfg, st).1);
      NoPromptLineStep(st.buf);
    }
  }

  lemma PromptLineShift(buf: string, k: nat, i: nat)
    requires 0 < k && k + i <= |buf| && buf[k - 1] == '\n'
    ensures PromptLineAt(buf[k..], i) <==> PromptLineAt(buf, k + i)
  {
    assert buf[k..][i..] == buf[k + i..];
  }

  lemma PromptLineFirst(buf: string)
    requires Newline(buf) < |buf|
    ensures PromptLineAt(buf, 0) <==> StartsWith(buf[..Newline(buf)], PROMPT)
    ensures forall i :: 0 < i <= Newline(buf) ==> !PromptLineAt(buf, i)
  {
    PromptInLine(buf);
    assert buf[0..] == buf && buf[Newline(buf)] == '\n';
    hide StartsWith;
  }

  lemma PromptLineLater(buf: string, k: nat)
    requires 0 < k <= |buf| && buf[k - 1] == '\n'
    ensures NoPromptLine(buf[k..]) <==> forall i :: k <= i <= |buf| ==> !PromptLineAt(buf, i)
  {
    forall i | 0 <= i <= |buf| - k
      ensures PromptLineAt(buf[k..], i) <==> PromptLineAt(buf, k + i)
    {
      PromptLineShift(buf, k, i);
    }
    hide PromptLineAt;
    if NoPromptLine(buf[k..]) {
      forall i | k <= i <= |buf|
        ensures !PromptLineAt(buf, i)
      {
        assert !PromptLineAt(buf[k..], i - k);
      }
    }
  }

  lemma NoPromptLineStep(buf: string)
    requires Newline(buf) < |buf|
    ensures NoPromptLine(buf) <==> !StartsWith(buf[..Newline(buf)], PROMPT) && NoPromptLine(buf[Newline(buf) + 1..])
  {
    PromptLineFirst(buf);
    PromptLineLater(buf, Newline(buf) + 1);
    hide *;
    NoPromptLineIs(buf);
  }

  lemma NoPromptLineIs(buf: string)
    ensures NoPromptLine(buf) <==> forall i :: 0 <= i <= |buf| ==> !PromptLineAt(buf, i)
  {
  }

  lemma PrefixSplits(s: string, p: string)
    requires p <= s
    ensures s == p + s[|p|..]
  {
  }

  lemma PrefixOfPart(s: string, n: nat, p: string)
    requires n <= |s|
    ensures p <= s[..n] <==> |p| <= n && p <= s
  {
    if |p| <= n {
      assert s[..n][..|p|] == s[..|p|];
    }
  }

  /** A word without newline at the front of a stream is in its first line. */
  lemma WordInLine(buf: string, p: string)
    requires Newline(buf) < |buf| && Newline(p) == |p|
    ensures p <= buf <==> p <= buf[..Newline(buf)]
  {
    hide Newline;
    PrefixOfPart(buf, Newline(buf), p);
    if p <= buf {
      PrefixSplits(buf, p);
      NewlineConcat(p, buf[|p|..]);
    }
  }

  lemma PromptInLine(buf: string)
    requires Newline(buf) < |buf|
    ensures StartsWith(buf, PROMPT) <==> StartsWith(buf[..Newline(buf)], PROMPT)
  {
    PromptIsOneLine();
    hide PROMPT, Newline;
    WordInLine(buf, PROMPT);
  }

  /**
    The exact condition: a fresh framer gives the same joined events for every
    way of cutting the stream if and only if no complete line after the echo
    begins with the prompt.
   */
  lemma InvariantExactlyWhenQuiet(cfg: Config, st: State, data: string)
    requires Fresh(st)
    ensures (forall chunks :: CutOf(chunks, data) ==>
              Joined(FeedAll(cfg, [], st, chunks).0) == Joined(FeedOne(cfg, [], st, data).0))
        <==> NoPromptAfterEcho(cfg, st.(buf := Clean(data).0))
  {
    hide Clean, Quiet, FeedAll, FeedOne, NoPromptAfterEcho;
    QuietMeans(cfg, st.(buf := Clean(data).0));
    assert [] + data == data && [] + Clean(data).0 == Clean(data).0;
    if Quiet(cfg, st.(buf := Clean(data).0)) {
      forall chunks | CutOf(chunks, data)
        ensures Joined(FeedAll(cfg, [], st, chunks).0) == Joined(FeedOne(cfg, [], st, data).0)
      {
        ChunkInvariance(cfg, [], st, chunks);
      }
    } else {
      var chunks := DisagreeingCut(cfg, st, data);
    }
  }

  /** A framer that has just been made. */
  predicate New(st: State) {
    st == State(Echo, [], false, [], [])
  }

  /** A line of one character that no echo begins with. */
  function NotEchoed(cfg: Config): (s: string)
    ensures |s| == 1 && s[0] != '\n' && s[0] != '\r' && s[0] != ESC && s[0] != '[' && !IsParam(s[0])
    ensures !StartsWith(cfg.echo, s)
  {
    if cfg.echo != [] && cfg.echo[0] == '.' then "!" else "."
  }

  lemma EchoOver(cfg: Config, rest: string)
    ensures AfterEcho(cfg, State(Echo, NotEchoed(cfg) + "\n" + rest, false, [], [])) == Some(rest)
  {
    var line := NotEchoed(cfg);
    var st := State(Echo, line + "\n" + rest, false, [], []);
    NoNewline(line);
    NewlineConcat(line, "\n" + rest);
    assert line + "\n" + rest == line + ("\n" + rest);
    assert st.buf[..1] == line && st.buf[2..] == rest && [] + line == line;
    assert TakeLine(cfg, st).1 == State(Stream, rest, false, [], line);
    hide StartsWith, NotEchoed;
  }

  /** A stream that fails: an echo, then the prompt as a line of its own. */
  function PromptAsLine(cfg: Config): string {
    NotEchoed(cfg) + "\n" + (PROMPT + "\n")
  }

  lemma PromptAsLineIsClean(cfg: Config)
    ensures Clean(PromptAsLine(cfg)).0 == PromptAsLine(cfg)
  {
    var data, head := PromptAsLine(cfg), NotEchoed(cfg) + "\n" + PROMPT;
    assert data == head + ['\n'];
    PlainEnd(head, '\n');
    assert ESC !in PROMPT && '\r' !in PROMPT;
    NoEscape(data);
    assert data[..|data|] == data;
    hide NotEchoed;
  }

  lemma PromptIsLine()
    ensures !NoPromptLine(PROMPT + "\n")
  {
    var text := PROMPT + "\n";
    assert text[0..] == text && text[|text| - 1] == '\n';
    assert PromptLineAt(text, 0);
  }

  lemma PromptAndNewlineDisagree(cfg: Config, st: State)
    requires New(st)
    ensures exists chunks ::
      CutOf(chunks, PromptAsLine(cfg))
      && Joined(FeedAll(cfg, [], st, chunks).0) != Joined(FeedOne(cfg, [], st, PromptAsLine(cfg)).0)
  {
    PromptAsLineIsClean(cfg);
    EchoOver(cfg, PROMPT + "\n");
    PromptIsLine();
    hide *;
    NewDisagrees(cfg, st);
    InvariantExactlyWhenQuiet(cfg, st, PromptAsLine(cfg));
  }

  lemma NewDisagrees(cfg: Config, st: State)
    requires New(st) && Clean(PromptAsLine(cfg)).0 == PromptAsLine(cfg)
    requires AfterEcho(cfg, State(Echo, NotEchoed(cfg) + "\n" + (PROMPT + "\n"), false, [], [])) == Some(PROMPT + "\n")
    requires !NoPromptLine(PROMPT + "\n")
    ensures Fresh(st) && !NoPromptAfterEcho(cfg, st.(buf := Clean(PromptAsLine(cfg)).0))
  {
    hide Clean, NotEchoed, AfterEcho, NoPromptLine;
  }

  // ------------------------------------------------------------- the object

  class ShellFramer {
    const cfg: Config
    var phase: Phase
    var buf: string
    var raw: string
    var lineIsText: bool
    var footer: seq<string>
    var echoSeen: string

    ghost function St(): State
      reads this
    {
      State(phase, buf, lineIsText, footer, echoSeen)
    }

    constructor (cfg: Config)
      ensures this.cfg == cfg && raw == [] && St() == State(Echo, [], false, [], [])
    {
      this.cfg := cfg;
      phase, buf, raw, lineIsText, footer, echoSeen := Echo, [], [], false, [], [];
    }

    /** _log_match_len: leading characters consistent with the log prefix, -1 on a mismatch. */
    method MatchLog(s: string) returns (n: int)
      ensures n == LogMatchLen(cfg, s)
    {
      var lim := if |s| < |LOG_TPL| then |s| else |LOG_TPL|;
      for i := 0 to lim
        invariant forall j :: 0 <= j < i ==> LogChar(cfg, s[j], j)
      {
        var want := LOG_TPL[i];
        if want == 'N' {
          if !cfg.digit(s[i]) {
            return -1;
          }
        } else if s[i] != want {
          return -1;
        }
      }
      return lim;
    }

    method FindError(bare: string) returns (found: bool)
      ensures found == IsErrorLine(bare)
    {
      for i := 0 to |ERROR_PREFIXES|
        invariant forall j :: 0 <= j < i ==> !StartsWith(bare, ERROR_PREFIXES[j])
      {
        if StartsWith(bare, ERROR_PREFIXES[i]) {
          return true;
        }
      }
      return false;
    }

    method FinishLine(bare: string) returns (out: seq<Event>)
      requires phase != Echo
      modifies this
      ensures (out, St()) == CompleteLine(cfg, old(St()), bare) && raw == old(raw)
    {
      var headEmitted := lineIsText;
      lineIsText := false;
      if headEmitted {
        return if phase == Stream then [Text(bare + "\n")] else [];
      }
      var m := MatchLog(bare);
      if m == |LOG_TPL| {
        return [];
      }
      if phase == Footer {
        footer := footer + [bare];
        if |footer| == 2 {
          phase := Tail;
          var st := cfg.parse(footer[0] + "\n" + footer[1]);
          return if st.Some? then [Stats(st.value)] else [];
        }
        return [];
      }
      if phase == Tail {
        return [];
      }
      if bare == FOOTER && cfg.expectFooter {
        phase := Footer;
        return [];
      }
      var e := FindError(bare);
      return if e then [Error(bare)] else [Text(bare + "\n")];
    }

    /** One complete line, in or after the echo. */
    method TurnLine(nl: nat) returns (ev: seq<Event>)
      requires nl == Newline(buf) < |buf|
      modifies this
      ensures raw == old(raw) && (ev, St()) == TakeLine(cfg, old(St()))
    {
      hide StartsWith, Newline, CompleteLine;
      var line := buf[..nl];
      ev := [];
      if phase == Echo {
        echoSeen := echoSeen + line;
        if !(StartsWith(cfg.echo, echoSeen) && |echoSeen| < |cfg.echo|) {
          phase := Stream;
        }
      } else {
        ev := FinishLine(line);
      }
      buf := buf[nl + 1..];
    }

    /** One turn of the loop of feed; `more` says whether it goes round again. */
    method Turn() returns (ev: seq<Event>, more: bool)
      modifies this
      ensures raw == old(raw) && (more ==> |buf| < |old(buf)|)
      ensures if more then Run(cfg, old(St())) == (ev + Run(cfg, St()).0, Run(cfg, St()).1)
              else Run(cfg, old(St())) == (ev, St())
    {
      hide TakeLine, EchoLine, CompleteLine, Newline, MustHold, StartsWith;
      var nl := Newline(buf);
      if nl < |buf| {
        RunTakesLine(cfg, St());
        hide Run;
        ev := TurnLine(nl);
        return ev, true;
      }
      if phase == Echo {
        return [], false;
      }
      if !lineIsText && StartsWith(buf, PROMPT) {
        RunTakesPrompt(cfg, St());
        hide Run;
        buf := buf[|PROMPT|..];
        phase := Tail;
        return [Done], true;
      }
      if phase == Stream && buf != [] && (lineIsText || !MustHold(cfg, buf)) {
        ev := [Text(buf)];
        buf, lineIsText := [], true;
        return ev, false;
      }
      return [], false;
    }

    /** feed: exactly one read of the specification. */
    method Feed(data: string) returns (out: seq<Event>)
      modifies this
      ensures (out, raw, St()) == FeedOne(cfg, old(raw), old(St()), data)
    {
      var (clean, held) := Clean(raw + data);
      hide Run;
      raw := held;
      buf := buf + clean;
      ghost var whole := Run(cfg, St());
      out := [];
      var more := true;
      assert [] + Run(cfg, St()).0 == Run(cfg, St()).0;
      while more
        invariant raw == held
        invariant if more then whole == (out + Run(cfg, St()).0, Run(cfg, St()).1) else whole == (out, St())
        decreases more, |buf|
      {
        ghost var before := out;
        var ev;
        ev, more := Turn();
        out := out + ev;
        assert more ==> before + (ev + Run(cfg, St()).0) == out + Run(cfg, St()).0;
      }
    }
  }
}
