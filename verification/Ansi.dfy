/**
  The cleaning step of ShellFramer.feed in tools/chat.py: ANSI colour codes and
  carriage returns removed, a code cut off by the end of the input held back.
 */
module Ansi {
  import opened Sequences

  const ESC: char := '\U{001b}'

  predicate IsParam(c: char) {
    '0' <= c <= '9' || c == ';'
  }

  predicate IsFinal(c: char) {
    'A' <= c <= 'Z' || 'a' <= c <= 'z'
  }

  function ParamRun(s: string): (n: nat)
    ensures n <= |s| && forall i :: 0 <= i < n ==> IsParam(s[i])
    ensures n < |s| ==> !IsParam(s[n])
  {
    if s == [] || !IsParam(s[0]) then 0 else 1 + ParamRun(s[1..])
  }

  /** Length of the complete code at the start of `s`, or 0. */
  function CodeLen(s: string): (n: nat)
    ensures n <= |s|
  {
    if |s| >= 3 && s[0] == ESC && s[1] == '[' then
      var n := ParamRun(s[2..]);
      if 2 + n < |s| && IsFinal(s[2 + n]) then n + 3 else 0
    else 0
  }

  /** All of `s` is the beginning of a code that has not ended yet. */
  predicate Partial(s: string) {
    s != [] && s[0] == ESC && (|s| == 1 || (s[1] == '[' && forall i :: 2 <= i < |s| ==> IsParam(s[i])))
  }

  /** Every complete code removed, leftmost first. */
  function Strip(s: string): (t: string)
    decreases |s|
  {
    if s == [] then []
    else if CodeLen(s) > 0 then Strip(s[CodeLen(s)..])
    else [s[0]] + Strip(s[1..])
  }

  /** Where the unfinished code at the end of `s` starts, or |s|. */
  function Cut(s: string): (i: nat)
    ensures i <= |s|
    ensures i < |s| ==> Partial(s[i..])
  {
    if s == [] || Partial(s) then 0 else 1 + Cut(s[1..])
  }

  function DropReturns(s: string): (t: string)
    ensures |t| <= |s|
  {
    if s == [] then [] else (if s[0] == '\r' then [] else [s[0]]) + DropReturns(s[1..])
  }

  /** Clean text, and what is held back for the next read. */
  function Clean(s: string): (r: (string, string)) {
    (DropReturns(Strip(s[..Cut(s)])), s[Cut(s)..])
  }

  lemma {:induction false} DropReturnsConcat(a: string, b: string)
    ensures DropReturns(a + b) == DropReturns(a) + DropReturns(b)
  {
    if a == [] {
      assert a + b == b;
    } else {
      assert (a + b)[1..] == a[1..] + b;
      var h := if a[0] == '\r' then [] else [a[0]];
      assert DropReturns(a) == h + DropReturns(a[1..]) && DropReturns(a + b) == h + DropReturns(a[1..] + b);
      hide *;
      DropReturnsConcat(a[1..], b);
      AppendAssoc(h, DropReturns(a[1..]), DropReturns(b));
    }
  }

  /** Being unfinished is closed under non-empty prefixes. */
  lemma PartialPrefix(a: string, b: string)
    requires a != [] && Partial(a + b)
    ensures Partial(a)
  {
    assert forall i :: 0 <= i < |a| ==> (a + b)[i] == a[i];
  }

  lemma {:induction false} CutAppend(a: string, b: string)
    ensures Cut(a + b) == Cut(a) + Cut(a[Cut(a)..] + b)
  {
    if a == [] {
      assert a + b == b && a[0..] + b == b;
    } else if Partial(a) {
      assert a[0..] == a;
    } else {
      if Partial(a + b) {
        PartialPrefix(a, b);
      }
      assert (a + b)[1..] == a[1..] + b;
      CutAppend(a[1..], b);
      assert a[Cut(a)..] == a[1..][Cut(a[1..])..];
    }
  }

  lemma {:induction false} CutSuffix(a: string, m: nat)
    requires m <= |a| && Cut(a) == |a|
    ensures Cut(a[m..]) == |a| - m
  {
    if m > 0 {
      CutSuffix(a[1..], m - 1);
      assert a[1..][m - 1..] == a[m..];
    }
  }

  lemma {:induction false} ParamRunConcat(a: string, b: string)
    ensures ParamRun(a) < |a| ==> ParamRun(a + b) == ParamRun(a)
    ensures ParamRun(a) == |a| ==> ParamRun(a + b) == |a| + ParamRun(b)
  {
    if a == [] {
      assert a + b == b;
    } else if IsParam(a[0]) {
      ParamRunConcat(a[1..], b);
      assert (a + b)[1..] == a[1..] + b;
    }
  }

  /** A complete code in `a` stays one; a code across the boundary means `a` was unfinished and `b` goes on with it. */
  lemma CodeLenConcat(a: string, b: string)
    requires a != []
    ensures CodeLen(a) > 0 ==> CodeLen(a + b) == CodeLen(a)
    ensures CodeLen(a) == 0 && CodeLen(a + b) > 0 ==> Partial(a) && b != [] && b[0] != ESC
  {
    if |a| >= 2 && a[0] == ESC && a[1] == '[' {
      assert (a + b)[2..] == a[2..] + b;
      ParamRunConcat(a[2..], b);
      if ParamRun(a[2..]) == |a| - 2 {
        assert forall i :: 2 <= i < |a| ==> a[i] == a[2..][i - 2];
        if b != [] && b[0] == ESC {
          assert ParamRun(b) == 0;
          assert (a + b)[|a|] == ESC;
        }
      }
    }
  }

  lemma SameCode(a: string, b: string)
    requires a != [] && (b == [] || b[0] == ESC || Cut(a) == |a|)
    ensures CodeLen(a + b) == CodeLen(a)
  {
    CodeLenConcat(a, b);
  }

  lemma StripStep(a: string, b: string, m: nat)
    requires a != [] && m == (if CodeLen(a) > 0 then CodeLen(a) else 1) && CodeLen(a + b) == CodeLen(a)
    requires Strip((a + b)[m..]) == Strip(a[m..]) + Strip(b)
    ensures Strip(a + b) == Strip(a) + Strip(b)
  {
    hide CodeLen;
  }

  lemma {:induction false} StripConcat(a: string, b: string)
    requires b == [] || b[0] == ESC || Cut(a) == |a|
    ensures Strip(a + b) == Strip(a) + Strip(b)
    decreases |a|
  {
    hide CodeLen, Partial;
    if a == [] {
      assert a + b == b;
    } else {
      var m := if CodeLen(a) > 0 then CodeLen(a) else 1;
      SameCode(a, b);
      assert (a + b)[m..] == a[m..] + b;
      if Cut(a) == |a| {
        CutSuffix(a, m);
      }
      StripConcat(a[m..], b);
      StripStep(a, b, m);
    }
  }

  lemma CutChunks(a: string, b: string)
    ensures var r := a[Cut(a)..] + b;
      && (a + b)[..Cut(a + b)] == a[..Cut(a)] + r[..Cut(r)]
      && (a + b)[Cut(a + b)..] == r[Cut(r)..]
      && (r[..Cut(r)] == [] || r[..Cut(r)][0] == ESC || Cut(a[..Cut(a)]) == Cut(a))
  {
    CutAppend(a, b);
    hide Cut;
    var i, r := Cut(a), a[Cut(a)..] + b;
    assert a + b == a[..i] + r;
    SplitConcat(a[..i], r, Cut(r));
    if i == |a| {
      assert a[..i] == a;
    } else {
      assert a[i..][0] == ESC;
      assert r[..Cut(r)] == [] || r[..Cut(r)][0] == r[0];
    }
  }

  lemma SplitConcat(x: string, r: string, k: nat)
    requires k <= |r|
    ensures (x + r)[..|x| + k] == x + r[..k] && (x + r)[|x| + k..] == r[k..]
  {
  }

  /** Cleaning in two reads is cleaning in one, wherever the cut falls, inside a code too. */
  lemma CleanChunks(a: string, b: string)
    ensures var r := Clean(Clean(a).1 + b);
      Clean(a + b) == (Clean(a).0 + r.0, r.1)
  {
    var r := a[Cut(a)..] + b;
    var x, y := a[..Cut(a)], r[..Cut(r)];
    CutChunks(a, b);
    StripConcat(x, y);
    DropReturnsConcat(Strip(x), Strip(y));
  }

  // --------------------------------- where a clean prefix ends in the raw input

  lemma {:induction false} StripKeeps(s: string, c: char)
    requires c !in s
    ensures c !in Strip(s)
    decreases |s|
  {
    if s != [] {
      var m := if CodeLen(s) > 0 then CodeLen(s) else 1;
      StripKeeps(s[m..], c);
    }
  }

  lemma {:induction false} DropReturnsKeeps(s: string, c: char)
    requires c !in s
    ensures c !in DropReturns(s)
  {
    if s != [] {
      DropReturnsKeeps(s[1..], c);
    }
  }

  /** A character that no code contains ends the one being held back, which comes out as it was. */
  lemma HeldThenPlain(held: string, c: char)
    requires held == [] || Partial(held)
    requires c != ESC && c != '[' && c != '\r' && !IsParam(c) && !IsFinal(c)
    ensures Clean(held + [c]) == (held + [c], [])
  {
    PlainEnd(held, c);
    PlainStrip(held, c);
    assert (held + [c])[|held| + 1..] == [];
  }

  lemma {:induction false} PlainEnd(s: string, c: char)
    requires c != ESC && c != '[' && !IsParam(c)
    ensures Cut(s + [c]) == |s| + 1
  {
    assert (s + [c])[|s|] == c;
    if s != [] {
      assert (s + [c])[1..] == s[1..] + [c];
      PlainEnd(s[1..], c);
    } else {
      assert s + [c] == [c];
      assert Cut([c]) == 1;
    }
  }

  lemma PlainStrip(held: string, c: char)
    requires held == [] || Partial(held)
    requires c != ESC && c != '[' && c != '\r' && !IsParam(c) && !IsFinal(c)
    ensures DropReturns(Strip((held + [c])[..|held| + 1])) == held + [c]
  {
    var s := held + [c];
    assert s[..|held| + 1] == s;
    if held != [] {
      if |s| >= 3 {
        var n := ParamRun(s[2..]);
        assert forall i :: 2 <= i < |held| ==> s[2..][i - 2] == held[i];
        assert s[2..][|held| - 2] == c;
        assert 2 + n == |held|;
      }
      NoEscape(s[1..]);
      assert s == [ESC] + s[1..];
    } else {
      NoEscape(s);
    }
  }

  lemma {:induction false} NoEscape(s: string)
    requires ESC !in s && '\r' !in s
    ensures DropReturns(Strip(s)) == s
  {
    if s != [] {
      NoEscape(s[1..]);
      assert s == [s[0]] + s[1..];
    }
  }

  /** A clean prefix that ends in a space is what some raw prefix cleans to. */
  lemma {:induction false} SpaceBoundary(raw: string, k: nat) returns (j: nat)
    requires 0 < k <= |Clean(raw).0| && Clean(raw).0[k - 1] == ' '
    ensures j <= |raw| && Clean(raw[..j]) == (Clean(raw).0[..k], [])
  {
    hide Clean;
    CleanEmpty();
    var n := |raw| - 1;
    var before, c := raw[..n], raw[n];
    assert before + [c] == raw;
    CleanChunks(before, [c]);
    if k <= |Clean(before).0| {
      j := SpaceBoundary(before, k);
      assert before[..j] == raw[..j];
      assert Clean(raw).0[..k] == Clean(before).0[..k];
    } else {
      SpaceArrives(before, c, k);
      j := |raw|;
      assert raw[..j] == raw && Clean(raw).0[..k] == Clean(raw).0;
    }
  }

  /** If the prefix ends inside what the last character releases, that character is the space. */
  lemma SpaceArrives(before: string, c: char, k: nat)
    requires Clean(before + [c]) == (Clean(before).0 + Clean(Clean(before).1 + [c]).0, Clean(Clean(before).1 + [c]).1)
    requires |Clean(before).0| < k <= |Clean(before + [c]).0| && Clean(before + [c]).0[k - 1] == ' '
    ensures k == |Clean(before + [c]).0| && Clean(before + [c]).1 == []
  {
    var held, m := Clean(before).1, k - 1 - |Clean(before).0|;
    var s := held + [c];
    HeldHasNoSpace(before);
    hide Clean, Partial;
    assert Clean(s).0[m] == ' ';
    if c == ' ' {
      HeldThenPlain(held, c);
      assert Clean(s).0 == held + [' '] && m == |held|;
    } else {
      CleanKeeps(s, ' ');
      assert false;
    }
  }

  lemma HeldHasNoSpace(s: string)
    ensures Clean(s).1 == [] || Partial(Clean(s).1)
    ensures ' ' !in Clean(s).1
  {
    hide Strip, DropReturns;
  }

  lemma CleanEmpty()
    ensures Clean([]) == ([], [])
  {
  }

  lemma CleanKeeps(s: string, c: char)
    requires c !in s
    ensures c !in Clean(s).0
  {
    StripKeeps(s[..Cut(s)], c);
    DropReturnsKeeps(Strip(s[..Cut(s)]), c);
  }
}
