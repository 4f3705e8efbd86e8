/**
  What a reader of ShellFramer's events sees, said of the lines of the stream
  alone: the lines that are not control lines, the errors, the statistics and
  the prompts, whatever the cuts.
 */
module FramerText {
  import opened Ansi
  import opened Framer
  import opened Sequences
  import opened Words

  // -------------------------------------------------------------- the stream

  /** The complete lines of a stream ... */
  function Lines(s: string): (ls: seq<string>)
    decreases |s|
  {
    var nl := Newline(s);
    if nl == |s| then [] else [s[..nl]] + Lines(s[nl + 1..])
  }

  /** ... and what follows the last newline. */
  function Rest(s: string): (r: string)
    decreases |s|
  {
    var nl := Newline(s);
    if nl == |s| then s else Rest(s[nl + 1..])
  }

  /** The line that ends the text and starts the footer. */
  predicate Marker(cfg: Config, line: string) {
    cfg.expectFooter && line == FOOTER
  }

  /** The lines before the first marker. */
  function Streamed(cfg: Config, ls: seq<string>): (k: nat)
    ensures k <= |ls| && (k < |ls| ==> Marker(cfg, ls[k]))
    ensures forall i :: 0 <= i < k ==> !Marker(cfg, ls[i])
  {
    if ls == [] || Marker(cfg, ls[0]) then 0 else 1 + Streamed(cfg, ls[1..])
  }

  /** What one line of the text comes out as ... */
  function ToldOne(cfg: Config, line: string): seq<Event> {
    if IsLogLine(cfg, line) then [] else if IsErrorLine(line) then [Error(line)] else [Text(line + "\n")]
  }

  /** ... and what all of them do. */
  function Told(cfg: Config, ls: seq<string>): seq<Event> {
    if ls == [] then [] else ToldOne(cfg, ls[0]) + Told(cfg, ls[1..])
  }

  lemma ToldStep(cfg: Config, line: string, ls: seq<string>)
    ensures Told(cfg, [line] + ls) == ToldOne(cfg, line) + Told(cfg, ls)
  {
    assert ([line] + ls)[1..] == ls;
    hide ToldOne;
  }

  function NonLog(cfg: Config, ls: seq<string>): seq<string> {
    if ls == [] then [] else (if IsLogLine(cfg, ls[0]) then [] else [ls[0]]) + NonLog(cfg, ls[1..])
  }

  /** The statistics: the first two footer lines, if they parse. */
  function Figures(cfg: Config, kept: seq<string>): seq<Event> {
    if |kept| < 2 then []
    else
      var p := cfg.parse(kept[0] + "\n" + kept[1]);
      if p.Some? then [Stats(p.value)] else []
  }

  /** The unfinished line: prompts, and text that no control line begins with. */
  function Ending(cfg: Config, streaming: bool, rest: string): seq<Event>
    decreases |rest|
  {
    if StartsWith(rest, PROMPT) then [Done] + Ending(cfg, false, rest[|PROMPT|..])
    else if streaming && rest != [] && !MustHold(cfg, rest) then [Text(rest)]
    else []
  }

  /** Everything the framer says of a text: its lines up to the marker, the statistics, the unfinished line. */
  function Spoken(cfg: Config, ls: seq<string>, rest: string): seq<Event> {
    var k := Streamed(cfg, ls);
    Told(cfg, ls[..k])
    + (if k < |ls| then Figures(cfg, NonLog(cfg, ls[k + 1..])) else [])
    + Ending(cfg, k == |ls|, rest)
  }

  function Transcript(cfg: Config, text: string): seq<Event> {
    Spoken(cfg, Lines(text), Rest(text))
  }

  // --------------------------------------------- one read gives the transcript

  /** After a prompt or the statistics: nothing but prompts. */
  lemma {:induction false} TailRun(cfg: Config, st: State)
    requires st.phase == Tail && !st.lineIsText
    ensures Run(cfg, st).0 == Ending(cfg, false, Rest(st.buf))
    decreases |st.buf|
  {
    hide MustHold, IsLogLine, StartsWith;
    if Newline(st.buf) < |st.buf| {
      var st1 := TakeLine(cfg, st).1;
      RunTakesLine(cfg, st);
      assert TakeLine(cfg, st) == ([], st.(buf := st.buf[Newline(st.buf) + 1..]));
      TailRun(cfg, st1);
      assert [] + Run(cfg, st1).0 == Run(cfg, st1).0;
    } else {
      PromptRun(cfg, st);
    }
  }

  /** The unfinished line at the end of the buffer. */
  lemma {:induction false} PromptRun(cfg: Config, st: State)
    requires st.phase != Echo && !st.lineIsText && Newline(st.buf) == |st.buf|
    ensures Run(cfg, st).0 == Ending(cfg, st.phase == Stream, st.buf) && Rest(st.buf) == st.buf
    decreases |st.buf|
  {
    hide MustHold;
    if StartsWith(st.buf, PROMPT) {
      var st1 := st.(buf := st.buf[|PROMPT|..], phase := Tail);
      NoNewline(st.buf);
      NoNewline(st1.buf);
      PromptRun(cfg, st1);
    }
  }

  /** One line off the front of the stream. */
  lemma LinesStep(s: string)
    requires Newline(s) < |s|
    ensures var line, rest := s[..Newline(s)], s[Newline(s) + 1..];
      Lines(s) == [line] + Lines(rest) && Rest(s) == Rest(rest)
  {
  }

  lemma LinesNone(s: string)
    requires Newline(s) == |s|
    ensures Lines(s) == [] && Rest(s) == s
  {
  }

  /** A line of the footer. */
  lemma FooterLine(cfg: Config, st: State)
    requires st.phase == Footer && !st.lineIsText && |st.footer| < 2 && Newline(st.buf) < |st.buf|
    ensures var line, rest := st.buf[..Newline(st.buf)], st.buf[Newline(st.buf) + 1..];
      TakeLine(cfg, st) ==
        if IsLogLine(cfg, line) then ([], st.(buf := rest))
        else if |st.footer| == 1 then
          (Figures(cfg, st.footer + [line]), st.(buf := rest, footer := st.footer + [line], phase := Tail))
        else ([], st.(buf := rest, footer := st.footer + [line]))
  {
    hide IsLogLine, IsErrorLine;
  }

  /** In the footer, with the lines in `st.footer` seen. */
  lemma {:induction false} FooterRun(cfg: Config, st: State)
    requires st.phase == Footer && !st.lineIsText && |st.footer| < 2
    ensures Run(cfg, st).0 == Figures(cfg, st.footer + NonLog(cfg, Lines(st.buf))) + Ending(cfg, false, Rest(st.buf))
    decreases |st.buf|
  {
    hide *;
    if Newline(st.buf) < |st.buf| {
      var st1 := TakeLine(cfg, st).1;
      RunTakesLine(cfg, st);
      FooterLine(cfg, st);
      LinesStep(st.buf);
      var line := st.buf[..Newline(st.buf)];
      NonLogStep(cfg, line, Lines(st1.buf));
      var more := NonLog(cfg, Lines(st1.buf));
      if IsLogLine(cfg, line) {
        FooterRun(cfg, st1);
        assert [] + more == more;
      } else if |st.footer| == 1 {
        TailRun(cfg, st1);
        FiguresEnough(cfg, st.footer + [line], more);
        assert st.footer + ([line] + more) == (st.footer + [line]) + more;
      } else {
        FooterRun(cfg, st1);
        assert st.footer + ([line] + more) == (st.footer + [line]) + more;
      }
    } else {
      PromptRun(cfg, st);
      LinesNone(st.buf);
      NonLogStep(cfg, [], []);
      NoFigures(cfg, st.footer);
      assert st.footer + [] == st.footer;
    }
  }

  lemma NonLogStep(cfg: Config, line: string, ls: seq<string>)
    ensures NonLog(cfg, [line] + ls) == (if IsLogLine(cfg, line) then [] else [line]) + NonLog(cfg, ls)
    ensures NonLog(cfg, []) == []
  {
    assert ([line] + ls)[1..] == ls;
  }

  lemma NoFigures(cfg: Config, kept: seq<string>)
    requires |kept| < 2
    ensures Figures(cfg, kept) == []
  {
  }

  lemma FiguresEnough(cfg: Config, kept: seq<string>, more: seq<string>)
    requires |kept| >= 2
    ensures Figures(cfg, kept + more) == Figures(cfg, kept)
  {
    assert (kept + more)[0] == kept[0] && (kept + more)[1] == kept[1];
  }

  // ------------------------------------------------------------ the streaming

  /** A line of the text, before the footer. */
  lemma StreamLine(cfg: Config, st: State)
    requires st.phase == Stream && !st.lineIsText && Newline(st.buf) < |st.buf|
    ensures var line, rest := st.buf[..Newline(st.buf)], st.buf[Newline(st.buf) + 1..];
      TakeLine(cfg, st) ==
        if Marker(cfg, line) then ([], st.(buf := rest, phase := Footer)) else (ToldOne(cfg, line), st.(buf := rest))
  {
    var line := st.buf[..Newline(st.buf)];
    MarkerIsNoLog(cfg);
    hide IsLogLine, IsErrorLine;
  }

  lemma MarkerIsNoLog(cfg: Config)
    ensures !IsLogLine(cfg, FOOTER)
  {
    assert !LogChar(cfg, FOOTER[0], 0);
  }

  lemma StreamedStep(cfg: Config, line: string, ls: seq<string>)
    ensures Streamed(cfg, [line] + ls) == if Marker(cfg, line) then 0 else 1 + Streamed(cfg, ls)
  {
    assert ([line] + ls)[1..] == ls;
  }

  lemma Behind(line: string, ls: seq<string>, k: nat)
    requires k <= |ls|
    ensures ([line] + ls)[..k + 1] == [line] + ls[..k] && ([line] + ls)[k + 1..] == ls[k..]
    ensures ([line] + ls)[..0] == []
  {
  }

  lemma SpokenMarker(cfg: Config, line: string, ls: seq<string>, rest: string)
    requires Marker(cfg, line)
    ensures Spoken(cfg, [line] + ls, rest) == Figures(cfg, NonLog(cfg, ls)) + Ending(cfg, false, rest)
  {
    StreamedStep(cfg, line, ls);
    Behind(line, ls, 0);
    assert ls[0..] == ls;
    hide Streamed, NonLog, Figures, Ending, Marker;
  }

  lemma FourParts(a: seq<Event>, b: seq<Event>, c: seq<Event>, d: seq<Event>)
    ensures (a + b) + c + d == a + (b + c + d)
  {
  }

  lemma SpokenLine(cfg: Config, line: string, ls: seq<string>, rest: string)
    requires !Marker(cfg, line)
    ensures Spoken(cfg, [line] + ls, rest) == ToldOne(cfg, line) + Spoken(cfg, ls, rest)
  {
    var k := Streamed(cfg, ls);
    var f := if k < |ls| then Figures(cfg, NonLog(cfg, ls[k + 1..])) else [];
    StreamedStep(cfg, line, ls);
    Behind(line, ls, k);
    ToldStep(cfg, line, ls[..k]);
    if k < |ls| {
      Behind(line, ls, k + 1);
    }
    FourParts(ToldOne(cfg, line), Told(cfg, ls[..k]), f, Ending(cfg, k == |ls|, rest));
    hide ToldOne, Told, Streamed, NonLog, Figures, Ending, Marker;
  }

  /** A whole text in one read. */
  lemma {:induction false} StreamRun(cfg: Config, st: State)
    requires st.phase == Stream && !st.lineIsText && st.footer == []
    ensures Run(cfg, st).0 == Transcript(cfg, st.buf)
    decreases |st.buf|
  {
    hide Run, TakeLine, Spoken, Lines, Rest, Marker, NonLog, Figures, Ending, Newline, IsLogLine, IsErrorLine;
    if Newline(st.buf) < |st.buf| {
      var (line, st1) := (st.buf[..Newline(st.buf)], TakeLine(cfg, st).1);
      RunTakesLine(cfg, st);
      StreamLine(cfg, st);
      LinesStep(st.buf);
      if Marker(cfg, line) {
        SpokenMarker(cfg, line, Lines(st1.buf), Rest(st1.buf));
        FooterRun(cfg, st1);
        assert [] + NonLog(cfg, Lines(st1.buf)) == NonLog(cfg, Lines(st1.buf));
      } else {
        SpokenLine(cfg, line, Lines(st1.buf), Rest(st1.buf));
        StreamRun(cfg, st1);
      }
    } else {
      PromptRun(cfg, st);
      LinesNone(st.buf);
      SpokenRest(cfg, st.buf);
    }
  }

  lemma SpokenRest(cfg: Config, rest: string)
    ensures Spoken(cfg, [], rest) == Ending(cfg, true, rest)
  {
    hide Ending;
  }

  /** A framer made for a stream, or past its echo. */
  predicate Started(st: State) {
    Fresh(st) && st.footer == [] && (st.phase == Echo || st.phase == Stream)
  }

  /** What a stream says: nothing before its echo has ended. */
  function Heard(cfg: Config, st: State, clean: string): seq<Event> {
    var t := AfterEcho(cfg, st.(buf := clean));
    if t.Some? then Transcript(cfg, t.value) else []
  }

  lemma {:induction false} EchoRun(cfg: Config, st: State)
    requires !st.lineIsText && st.footer == [] && (st.phase == Echo || st.phase == Stream)
    ensures Run(cfg, st).0 == Heard(cfg, st, st.buf)
    decreases |st.buf|
  {
    if st.phase == Stream {
      hide Run;
      StreamRun(cfg, st);
    } else if Newline(st.buf) < |st.buf| {
      hide Transcript, Run;
      RunTakesLine(cfg, st);
      EchoRun(cfg, TakeLine(cfg, st).1);
    }
  }

  /**
    The transcript theorem: however a stream is cut into reads, cuts inside
    terminal codes included, the joined events are those of its transcript.
   */
  lemma EveryCut(cfg: Config, st: State, chunks: seq<string>)
    requires Started(st) && chunks != []
    requires NoPromptAfterEcho(cfg, st.(buf := Clean(Flatten(chunks)).0))
    ensures Joined(FeedAll(cfg, [], st, chunks).0) == Joined(Heard(cfg, st, Clean(Flatten(chunks)).0))
  {
    var data := Flatten(chunks);
    var w := st.(buf := Clean(data).0);
    assert [] + data == data && [] + Clean(data).0 == Clean(data).0;
    QuietMeans(cfg, w);
    EchoRun(cfg, w);
    hide Clean, Quiet, NoPromptAfterEcho, Run, FeedAll, Heard;
    ChunkInvariance(cfg, [], st, chunks);
  }

  // ------------------------------------------------------------ the text alone

  function TextOf(evs: seq<Event>): string {
    if evs == [] then [] else TextOf(evs[..|evs| - 1]) + (if evs[|evs| - 1].Text? then evs[|evs| - 1].s else [])
  }

  lemma TextOfOne(e: Event)
    ensures TextOf([e]) == if e.Text? then e.s else []
  {
    assert [e][..0] == [];
  }

  lemma TextOfNext(evs: seq<Event>, e: Event)
    ensures TextOf(evs + [e]) == TextOf(evs) + if e.Text? then e.s else []
  {
    assert (evs + [e])[..|evs|] == evs;
  }

  lemma {:induction false} TextOfConcat(a: seq<Event>, b: seq<Event>)
    ensures TextOf(a + b) == TextOf(a) + TextOf(b)
  {
    if b == [] {
      assert a + b == a;
    } else {
      hide *;
      var c, e := b[..|b| - 1], b[|b| - 1];
      assert a + b == a + c + [e] && b == c + [e];
      TextOfConcat(a, c);
      TextOfNext(a + c, e);
      TextOfNext(c, e);
    }
  }

  lemma PushKeepsText(js: seq<Event>, e: Event)
    ensures TextOf(Push(js, e)) == TextOf(js) + TextOf([e])
  {
    TextOfOne(e);
    TextOfNext(js, e);
    if e.Text? && js != [] && js[|js| - 1].Text? {
      var init, last := js[..|js| - 1], js[|js| - 1].s;
      TextOfNext(init, Text(last + e.s));
      assert TextOf(js) == TextOf(init) + last;
      hide TextOf;
      AppendAssoc(TextOf(init), last, e.s);
    }
  }

  /** Joining texts loses nothing of them. */
  lemma {:induction false} FoldKeepsText(js: seq<Event>, evs: seq<Event>)
    ensures TextOf(Fold(js, evs)) == TextOf(js) + TextOf(evs)
    decreases |evs|
  {
    if evs != [] {
      PushKeepsText(js, evs[0]);
      FoldKeepsText(Push(js, evs[0]), evs[1..]);
      assert evs == [evs[0]] + evs[1..];
      TextOfConcat([evs[0]], evs[1..]);
    }
  }

  lemma JoinedText(a: seq<Event>, b: seq<Event>)
    requires Joined(a) == Joined(b)
    ensures TextOf(a) == TextOf(b)
  {
    FoldKeepsText([], a);
    FoldKeepsText([], b);
    assert TextOf([]) + TextOf(a) == TextOf(a) && TextOf([]) + TextOf(b) == TextOf(b);
  }

  /** The lines up to the marker that are not control lines. */
  function Said(cfg: Config, ls: seq<string>): string {
    if ls == [] || Marker(cfg, ls[0]) then []
    else (if IsControl(cfg, ls[0]) then [] else ls[0] + "\n") + Said(cfg, ls[1..])
  }

  /** As much of an unfinished line as is known to be text: all or nothing. */
  function Released(cfg: Config, rest: string): string {
    if StartsWith(rest, PROMPT) || MustHold(cfg, rest) then [] else rest
  }

  lemma {:induction false} EndingText(cfg: Config, streaming: bool, rest: string)
    ensures TextOf(Ending(cfg, streaming, rest)) == if streaming then Released(cfg, rest) else []
    decreases |rest|
  {
    hide MustHold;
    if StartsWith(rest, PROMPT) {
      EndingText(cfg, false, rest[|PROMPT|..]);
      TextOfConcat([Done], Ending(cfg, false, rest[|PROMPT|..]));
      TextOfOne(Done);
    } else {
      TextOfOne(Text(rest));
    }
  }

  lemma ToldOneText(cfg: Config, line: string)
    requires !Marker(cfg, line)
    ensures TextOf(ToldOne(cfg, line)) == if IsControl(cfg, line) then [] else line + "\n"
  {
    hide IsLogLine, IsErrorLine;
    TextOfOne(Error(line));
    TextOfOne(Text(line + "\n"));
  }

  lemma FiguresText(cfg: Config, kept: seq<string>)
    ensures TextOf(Figures(cfg, kept)) == []
  {
    forall g
      ensures TextOf([Stats(g)]) == []
    {
      TextOfOne(Stats(g));
    }
  }

  /** The text of a transcript: its lines that are not control lines, and the unfinished one once it is known to be text. */
  lemma {:induction false} SpokenText(cfg: Config, ls: seq<string>, rest: string)
    ensures TextOf(Spoken(cfg, ls, rest)) == Said(cfg, ls) + if Streamed(cfg, ls) == |ls| then Released(cfg, rest) else []
  {
    hide Spoken, Released, Ending, Figures, ToldOne, TextOf, Marker, IsControl;
    if ls == [] {
      SpokenRest(cfg, rest);
      EndingText(cfg, true, rest);
    } else {
      var line, more := ls[0], ls[1..];
      assert ls == [line] + more;
      if Marker(cfg, line) {
        SpokenMarker(cfg, line, more, rest);
        FiguresText(cfg, NonLog(cfg, more));
        EndingText(cfg, false, rest);
        TextOfConcat(Figures(cfg, NonLog(cfg, more)), Ending(cfg, false, rest));
      } else {
        SpokenLine(cfg, line, more, rest);
        SpokenText(cfg, more, rest);
        ToldOneText(cfg, line);
        TextOfConcat(ToldOne(cfg, line), Spoken(cfg, more, rest));
      }
    }
  }

  /** However a stream is cut, its text is that. */
  lemma TextOfEveryCut(cfg: Config, st: State, chunks: seq<string>, text: string)
    requires Started(st) && chunks != []
    requires AfterEcho(cfg, st.(buf := Clean(Flatten(chunks)).0)) == Some(text) && NoPromptLine(text)
    ensures TextOf(FeedAll(cfg, [], st, chunks).0)
         == Said(cfg, Lines(text)) + if Streamed(cfg, Lines(text)) == |Lines(text)| then Released(cfg, Rest(text)) else []
  {
    hide Clean, Flatten, AfterEcho, NoPromptLine, FeedAll, Joined, Said, Lines, Rest, Streamed, Released, Spoken;
    EveryCut(cfg, st, chunks);
    JoinedText(FeedAll(cfg, [], st, chunks).0, Transcript(cfg, text));
    SpokenText(cfg, Lines(text), Rest(text));
  }

  // --------------------------------------------------------- one line among others

  predicate EndsLine(s: string) {
    s == [] || s[|s| - 1] == '\n'
  }

  lemma FirstLineStays(pre: string, post: string)
    requires Newline(pre) < |pre|
    ensures var nl := Newline(pre);
      && Newline(pre + post) == nl && (pre + post)[..nl] == pre[..nl] && (pre + post)[nl + 1..] == pre[nl + 1..] + post
      && (EndsLine(pre) ==> EndsLine(pre[nl + 1..]))
  {
    NewlineConcat(pre, post);
  }

  lemma {:induction false} LinesConcat(pre: string, post: string)
    requires EndsLine(pre)
    ensures Lines(pre + post) == Lines(pre) + Lines(post) && Rest(pre + post) == Rest(post)
    decreases |pre|
  {
    hide Lines, Rest;
    if pre == [] {
      assert pre + post == post;
      LinesNone(pre);
    } else {
      NoNewline(pre);
      hide Newline, EndsLine;
      FirstLineStays(pre, post);
      LinesStep(pre);
      LinesStep(pre + post);
      LinesConcat(pre[Newline(pre) + 1..], post);
    }
  }

  lemma LineAmong(pre: string, line: string, post: string)
    requires EndsLine(pre) && '\n' !in line
    ensures Lines(pre + (line + "\n" + post)) == Lines(pre) + ([line] + Lines(post))
    ensures Rest(pre + (line + "\n" + post)) == Rest(post)
  {
    var s := line + "\n" + post;
    NoNewline(line);
    NewlineConcat(line, "\n" + post);
    assert s == line + ("\n" + post) && s[..|line|] == line && s[|line| + 1..] == post;
    LinesStep(s);
    LinesConcat(pre, s);
    hide Lines, Rest;
  }

  lemma SaidStep(cfg: Config, line: string, ls: seq<string>)
    ensures Said(cfg, [line] + ls)
         == if Marker(cfg, line) then [] else (if IsControl(cfg, line) then [] else line + "\n") + Said(cfg, ls)
    ensures Said(cfg, []) == []
  {
    assert ([line] + ls)[1..] == ls;
  }

  /** A control line says nothing as text, whatever is before and behind it. */
  lemma {:induction false} SaidWithout(cfg: Config, ls: seq<string>, line: string, more: seq<string>)
    requires IsControl(cfg, line)
    ensures Said(cfg, ls + ([line] + more)) == Said(cfg, ls + if Marker(cfg, line) then [] else more)
    ensures !Marker(cfg, line) ==>
      (Streamed(cfg, ls + ([line] + more)) == |ls| + 1 + |more| <==> Streamed(cfg, ls + more) == |ls| + |more|)
    ensures Marker(cfg, line) ==> Streamed(cfg, ls + ([line] + more)) <= |ls|
  {
    var kept := if Marker(cfg, line) then [] else more;
    if ls == [] {
      assert ls + ([line] + more) == [line] + more && ls + kept == kept && ls + more == more;
      SaidStep(cfg, line, more);
      StreamedStep(cfg, line, more);
    } else {
      var first, ms := ls[0], ls[1..];
      assert ls + ([line] + more) == [first] + (ms + ([line] + more));
      assert ls + kept == [first] + (ms + kept) && ls + more == [first] + (ms + more);
      hide *;
      SaidWithout(cfg, ms, line, more);
      SaidStep(cfg, first, ms + ([line] + more));
      SaidStep(cfg, first, ms + kept);
      StreamedStep(cfg, first, ms + ([line] + more));
      StreamedStep(cfg, first, ms + more);
    }
  }

  /**
    A control line anywhere in a stream, cut anywhere: the text that comes out
    is that of the stream without the line, or of the part before it if it
    starts the footer.
   */
  lemma ControlNeverText(cfg: Config, st: State, chunks: seq<string>, pre: string, line: string, post: string)
    requires Started(st) && chunks != []
    requires AfterEcho(cfg, st.(buf := Clean(Flatten(chunks)).0)) == Some(pre + (line + "\n" + post))
    requires NoPromptLine(pre + (line + "\n" + post))
    requires EndsLine(pre) && '\n' !in line && IsControl(cfg, line)
    ensures TextOf(FeedAll(cfg, [], st, chunks).0)
         == TextOf(Transcript(cfg, pre + if Marker(cfg, line) then [] else post))
  {
    var text, kept := pre + (line + "\n" + post), if Marker(cfg, line) then [] else post;
    LineAmong(pre, line, post);
    LinesConcat(pre, kept);
    LinesNone([]);
    SaidWithout(cfg, Lines(pre), line, Lines(post));
    NothingReleased(cfg);
    hide *;
    TextOfEveryCut(cfg, st, chunks, text);
    TranscriptText(cfg, pre + kept);
  }

  lemma NothingReleased(cfg: Config)
    ensures Released(cfg, []) == []
  {
  }

  lemma TranscriptText(cfg: Config, text: string)
    ensures TextOf(Transcript(cfg, text))
         == Said(cfg, Lines(text)) + if Streamed(cfg, Lines(text)) == |Lines(text)| then Released(cfg, Rest(text)) else []
  {
    hide *;
    SpokenText(cfg, Lines(text), Rest(text));
    TranscriptIs(cfg, text);
  }

  lemma TranscriptIs(cfg: Config, text: string)
    ensures Transcript(cfg, text) == Spoken(cfg, Lines(text), Rest(text))
  {
  }

  lemma {:induction false} NonLogWithout(cfg: Config, ls: seq<string>, line: string, more: seq<string>)
    requires IsLogLine(cfg, line)
    ensures NonLog(cfg, ls + ([line] + more)) == NonLog(cfg, ls + more)
  {
    hide IsLogLine;
    if ls == [] {
      assert ls + ([line] + more) == [line] + more && ls + more == more;
      NonLogStep(cfg, line, more);
      assert [] + NonLog(cfg, more) == NonLog(cfg, more);
    } else {
      NonLogWithout(cfg, ls[1..], line, more);
      assert (ls + ([line] + more))[1..] == ls[1..] + ([line] + more);
      assert (ls + more)[1..] == ls[1..] + more;
    }
  }

  lemma {:induction false} SpokenWithout(cfg: Config, ls: seq<string>, line: string, more: seq<string>, rest: string)
    requires IsLogLine(cfg, line)
    ensures Spoken(cfg, ls + ([line] + more), rest) == Spoken(cfg, ls + more, rest)
  {
    hide Spoken, IsLogLine, NonLog;
    if ls == [] {
      MarkerIsNoLog(cfg);
      SpokenLine(cfg, line, more, rest);
      assert ls + ([line] + more) == [line] + more && ls + more == more;
      assert [] + Spoken(cfg, more, rest) == Spoken(cfg, more, rest);
    } else {
      var first, ms := ls[0], ls[1..];
      assert ls + ([line] + more) == [first] + (ms + ([line] + more)) && ls + more == [first] + (ms + more);
      if Marker(cfg, first) {
        SpokenMarker(cfg, first, ms + ([line] + more), rest);
        SpokenMarker(cfg, first, ms + more, rest);
        NonLogWithout(cfg, ms, line, more);
      } else {
        SpokenLine(cfg, first, ms + ([line] + more), rest);
        SpokenLine(cfg, first, ms + more, rest);
        SpokenWithout(cfg, ms, line, more, rest);
      }
    }
  }

  /** A log line anywhere after the echo, in the footer too, leaves no trace in the events at all. */
  lemma LogNeverSeen(cfg: Config, st: State, chunks: seq<string>, pre: string, line: string, post: string)
    requires Started(st) && chunks != []
    requires AfterEcho(cfg, st.(buf := Clean(Flatten(chunks)).0)) == Some(pre + (line + "\n" + post))
    requires NoPromptLine(pre + (line + "\n" + post))
    requires EndsLine(pre) && '\n' !in line && IsLogLine(cfg, line)
    ensures Joined(FeedAll(cfg, [], st, chunks).0) == Joined(Transcript(cfg, pre + post))
  {
    LineAmong(pre, line, post);
    LinesConcat(pre, post);
    SpokenWithout(cfg, Lines(pre), line, Lines(post), Rest(post));
    hide Clean, Flatten, AfterEcho, NoPromptLine, FeedAll, Joined, Spoken, Lines, Rest, IsLogLine;
    EveryCut(cfg, st, chunks);
  }

  lemma EndingPrompt(cfg: Config, streaming: bool)
    ensures Ending(cfg, streaming, PROMPT) == [Done]
  {
    assert PROMPT[|PROMPT|..] == [];
    assert [Done] + [] == [Done];
    hide MustHold;
  }

  lemma JoinedLast(evs: seq<Event>, e: Event)
    requires !e.Text?
    ensures Joined(evs + [e]) == Joined(evs) + [e]
  {
    FoldConcat([], evs, [e]);
    assert [e][1..] == [];
  }

  /** The prompt at the start of a line, at the end of the stream, is announced and is not text. */
  lemma PromptEnds(cfg: Config, st: State, chunks: seq<string>, pre: string)
    requires Started(st) && chunks != [] && EndsLine(pre)
    requires AfterEcho(cfg, st.(buf := Clean(Flatten(chunks)).0)) == Some(pre + PROMPT) && NoPromptLine(pre + PROMPT)
    ensures exists before :: Joined(FeedAll(cfg, [], st, chunks).0) == before + [Done]
    ensures TextOf(FeedAll(cfg, [], st, chunks).0) == Said(cfg, Lines(pre))
  {
    PromptIsOneLine();
    LinesNone(PROMPT);
    LinesConcat(pre, PROMPT);
    assert Lines(pre) + [] == Lines(pre);
    hide Clean, Flatten, AfterEcho, NoPromptLine, FeedAll, Joined, Lines, Rest, MustHold, TextOf, Said;
    EveryCut(cfg, st, chunks);
    TextOfEveryCut(cfg, st, chunks, pre + PROMPT);
    var k := Streamed(cfg, Lines(pre));
    EndingPrompt(cfg, k == |Lines(pre)|);
    var body := Told(cfg, Lines(pre)[..k]) + (if k < |Lines(pre)| then Figures(cfg, NonLog(cfg, Lines(pre)[k + 1..])) else []);
    JoinedLast(body, Done);
    assert Transcript(cfg, pre + PROMPT) == body + [Done];
  }
}
