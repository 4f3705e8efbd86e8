/**
  The framer's view of single lines and terminal codes against what they are
  meant to recognise, written out.
 */
module FramerLines {
  import opened Ansi
  import opened Framer

  // ------------------------------------------------------------ what is held

  /** The log prefix with its digits filled in. */
  function LogHead(d: char): (s: string)
    ensures |s| == |LOG_TPL|
  {
    seq(|LOG_TPL|, i requires 0 <= i < |LOG_TPL| => if LOG_TPL[i] == 'N' then d else LOG_TPL[i])
  }

  lemma LogCompletes(cfg: Config, p: string, d: char)
    requires LogMatchLen(cfg, p) >= 0 && cfg.digit(d)
    ensures var rest := if |p| < |LOG_TPL| then LogHead(d)[|p|..] else [];
      IsLogLine(cfg, p + rest)
  {
    var rest := if |p| < |LOG_TPL| then LogHead(d)[|p|..] else [];
    var s := p + rest;
    forall i | 0 <= i < |s| && i < |LOG_TPL|
      ensures LogChar(cfg, s[i], i)
    {
      if i < |p| {
        assert s[i] == p[i];
      } else {
        assert s[i] == LogHead(d)[i];
      }
    }
  }

  lemma PrefixCompletes(p: string, whole: string)
    requires StartsWith(whole, p)
    ensures p + whole[|p|..] == whole
  {
  }

  /** A line with the beginnings the framer watches for. */
  predicate Watched(cfg: Config, line: string) {
    IsLogLine(cfg, line) || line == FOOTER || line == PROMPT || IsErrorLine(line)
  }

  lemma HeldCompletes(cfg: Config, p: string) returns (rest: string)
    requires MustHold(cfg, p) && cfg.digit('0')
    ensures Watched(cfg, p + rest)
  {
    if LogMatchLen(cfg, p) >= 0 {
      LogCompletes(cfg, p, '0');
      rest := if |p| < |LOG_TPL| then LogHead('0')[|p|..] else [];
    } else if StartsWith(FOOTER, p) {
      rest := FOOTER[|p|..];
      PrefixCompletes(p, FOOTER);
    } else if StartsWith(PROMPT, p) {
      rest := PROMPT[|p|..];
      PrefixCompletes(p, PROMPT);
    } else {
      var e :| e in ERROR_PREFIXES && (StartsWith(e, p) || StartsWith(p, e));
      if StartsWith(e, p) {
        rest := e[|p|..];
        PrefixCompletes(p, e);
      } else {
        rest := [];
        assert p + rest == p;
      }
    }
  }

  lemma WatchedHeld(cfg: Config, p: string, rest: string)
    requires p != [] && Watched(cfg, p + rest)
    ensures MustHold(cfg, p)
  {
    var line := p + rest;
    if IsErrorLine(line) {
      var e :| e in ERROR_PREFIXES && StartsWith(line, e);
      assert MayBeError(line);
    }
    assert MustHold(cfg, line);
    MustHoldMonotone(cfg, p, rest);
  }

  /**
    A partial line is held back exactly when something could still follow that
    makes it a log line, the footer's dashes, an error line or the prompt: none
    is let go too early, and nothing else is kept waiting.
   */
  lemma HeldExactly(cfg: Config, p: string)
    requires p != [] && cfg.digit('0')
    ensures MustHold(cfg, p) <==> exists rest :: Watched(cfg, p + rest)
  {
    hide MustHold, Watched;
    if MustHold(cfg, p) {
      var rest := HeldCompletes(cfg, p);
    }
    forall rest | Watched(cfg, p + rest)
      ensures MustHold(cfg, p)
    {
      WatchedHeld(cfg, p, rest);
    }
  }

  /** "[dd:dd:dd.ddd,ddd] <" and anything behind it. */
  lemma LogLineIs(cfg: Config, line: string)
    ensures IsLogLine(cfg, line) <==>
      && |line| >= 20
      && line[0] == '[' && line[3] == line[6] == ':' && line[9] == '.' && line[13] == ',' && line[17..20] == "] <"
      && forall i :: i in {1, 2, 4, 5, 7, 8, 10, 11, 12, 14, 15, 16} ==> cfg.digit(line[i])
  {
    if |line| >= 20 {
      assert line[17..20] == [line[17], line[18], line[19]];
      forall i | 0 <= i < 20
        ensures LogChar(cfg, line[i], i) <==> if i in {0, 3, 6, 9, 13, 17, 18, 19} then line[i] == LOG_TPL[i] else cfg.digit(line[i])
      {
      }
    }
  }

  // ----------------------------------------------------------- terminal codes

  const PARAMS: string := "0123456789;"

  /** Escape, "[", digits and semicolons, a letter. */
  predicate IsCode(c: string) {
    && |c| >= 3 && c[0] == ESC && c[1] == '['
    && (forall i :: 2 <= i < |c| - 1 ==> c[i] in PARAMS)
    && ('A' <= c[|c| - 1] <= 'Z' || 'a' <= c[|c| - 1] <= 'z')
  }

  lemma ParamIs(c: char)
    ensures IsParam(c) <==> c in PARAMS
  {
    if '0' <= c <= '9' {
      assert PARAMS[c as int - '0' as int] == c;
    } else if c == ';' {
      assert PARAMS[10] == c;
    }
  }

  lemma FinalIsNoParam(c: char)
    requires IsFinal(c)
    ensures !IsParam(c) && c != ESC
  {
  }

  lemma {:induction false} ParamsEnd(s: string)
    requires s != [] && IsFinal(s[|s| - 1]) && forall i :: 0 <= i < |s| - 1 ==> IsParam(s[i])
    ensures ParamRun(s) == |s| - 1
  {
    FinalIsNoParam(s[|s| - 1]);
    hide IsParam, IsFinal;
    if |s| > 1 {
      ParamsEnd(s[1..]);
    }
  }

  lemma CodeParts(c: string)
    requires IsCode(c)
    ensures |c| >= 3 && c[0] == ESC && c[1] == '[' && IsFinal(c[|c| - 1]) && forall i :: 2 <= i < |c| - 1 ==> IsParam(c[i])
  {
    forall i | 2 <= i < |c| - 1
      ensures IsParam(c[i])
    {
      ParamIs(c[i]);
    }
  }

  lemma CodeMeasured(c: string)
    requires IsCode(c)
    ensures CodeLen(c) == |c| && Cut(c) == |c|
  {
    CodeParts(c);
    FinalIsNoParam(c[|c| - 1]);
    forall i | 2 <= i < |c|
      ensures c[i] != ESC
    {
    }
    hide IsCode, IsParam, IsFinal, PARAMS, Cut, ParamRun;
    ParamsEnd(c[2..]);
    assert c[1..][1..] == c[2..];
    CutInside(c[1..]);
    NotPartial(c);
  }

  lemma NotPartial(c: string)
    requires |c| >= 3 && c[0] == ESC && !IsParam(c[|c| - 1]) && Cut(c[1..]) == |c| - 1
    ensures Cut(c) == |c|
  {
    hide IsParam;
  }

  /** What starts inside a code is not unfinished. */
  lemma CutInside(s: string)
    requires s != [] && s[0] != ESC && ESC !in s[1..]
    ensures Cut(s) == |s|
  {
    NoneUnfinished(s[1..]);
  }

  /** Nothing else is taken for a code. */
  lemma CodeOnly(s: string)
    requires CodeLen(s) > 0
    ensures IsCode(s[..CodeLen(s)])
  {
    var n := ParamRun(s[2..]);
    var c := s[..CodeLen(s)];
    forall i | 2 <= i < |c| - 1
      ensures c[i] in PARAMS
    {
      assert c[i] == s[2..][i - 2];
      ParamIs(c[i]);
    }
  }

  /** Without an escape nothing is unfinished. */
  lemma {:induction false} NoneUnfinished(s: string)
    requires ESC !in s
    ensures Cut(s) == |s|
  {
    if s != [] {
      assert s[0] in s;
      NoneUnfinished(s[1..]);
    }
  }

  lemma CodeCleans(c: string)
    requires IsCode(c)
    ensures Clean(c) == ([], [])
  {
    CodeMeasured(c);
    assert c != [];
    hide CodeLen, Cut, IsCode;
    assert c[..|c|] == c && c[|c|..] == [];
    assert Strip(c) == Strip(c[CodeLen(c)..]);
  }

  /** A complete code leaves no trace, wherever it stands between finished text and anything. */
  lemma CodeVanishes(a: string, c: string, b: string)
    requires IsCode(c) && Clean(a).1 == []
    ensures Clean(a + (c + b)) == Clean(a + b)
  {
    CodeCleans(c);
    hide Clean, IsCode;
    CleanChunks(a, c + b);
    CleanChunks(a, b);
    CleanChunks(c, b);
    assert [] + (c + b) == c + b && [] + b == b;
    assert [] + Clean(b).0 == Clean(b).0;
  }

  lemma {:induction false} NoReturns(s: string)
    ensures '\r' !in DropReturns(s)
  {
    if s != [] {
      NoReturns(s[1..]);
    }
  }

  /** No carriage return comes out, and one between finished text and anything leaves no trace. */
  lemma ReturnVanishes(a: string, b: string)
    ensures '\r' !in Clean(a).0
    ensures Clean(a).1 == [] ==> Clean(a + ("\r" + b)) == Clean(a + b)
  {
    NoReturns(Strip(a[..Cut(a)]));
    if Clean(a).1 == [] {
      ReturnCleans();
      hide Clean;
      CleanChunks(a, "\r" + b);
      CleanChunks(a, b);
      CleanChunks("\r", b);
      assert [] + ("\r" + b) == "\r" + b && [] + b == b;
      assert [] + Clean(b).0 == Clean(b).0;
    }
  }

  lemma ReturnCleans()
    ensures Clean("\r") == ([], [])
  {
    assert "\r"[..1] == "\r" && "\r"[1..] == [];
    assert Cut("\r") == 1;
    assert Strip("\r") == "\r";
  }

  /** Text without escapes and carriage returns comes through as it is. */
  lemma PlainPasses(s: string)
    requires ESC !in s && '\r' !in s
    ensures Clean(s) == (s, [])
  {
    NoneUnfinished(s);
    NoEscape(s);
    assert s[..|s|] == s && s[|s|..] == [];
  }
}
