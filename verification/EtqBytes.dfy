/**
  The file at the byte: which bytes the loader takes each number from, for any
  file, as core/include/tq/tq_format.h lays the structures out.
 */
module EtqBytes {
  import opened EtqFormat
  import opened ModelBinding
  import opened ModelOpen
  import opened Words

  /** A little-endian 32-bit word. */
  function WordAt(s: Bytes, at: nat): nat
    requires at + 4 <= |s|
  {
    s[at] as nat + 0x100 * (s[at + 1] as nat) + 0x1_0000 * (s[at + 2] as nat) + 0x100_0000 * (s[at + 3] as nat)
  }

  /** A little-endian 64-bit word. */
  function LongAt(s: Bytes, at: nat): nat
    requires at + 8 <= |s|
  {
    WordAt(s, at) + 0x1_0000_0000 * WordAt(s, at + 4)
  }

  lemma {:induction false} UnLeConcat(a: Bytes, b: Bytes)
    ensures UnLe(a + b) == UnLe(a) + Range(|a|) * UnLe(b)
  {
    if a == [] {
      assert a + b == b;
    } else {
      UnLeConcat(a[1..], b);
      assert (a + b)[1..] == a[1..] + b;
      Scaled(Range(|a| - 1), UnLe(b));
    }
  }

  lemma Scaled(r: nat, x: nat)
    ensures 256 * (r * x) == 256 * r * x
  {
  }

  lemma UnLeWord(s: Bytes, at: nat)
    requires at + 4 <= |s|
    ensures UnLe(s[at..at + 4]) == WordAt(s, at)
  {
    var t := s[at..at + 4];
    assert UnLe(t) == t[0] + 256 * UnLe(t[1..]);
    assert UnLe(t[1..]) == t[1] + 256 * UnLe(t[1..][1..]);
    assert t[1..][1..] == [t[2], t[3]];
    assert UnLe([t[2], t[3]]) == t[2] + 256 * UnLe([t[2], t[3]][1..]);
    assert [t[2], t[3]][1..] == [t[3]];
    assert UnLe([t[3]]) == t[3] + 256 * UnLe([t[3]][1..]);
  }

  lemma UnLeLong(s: Bytes, at: nat)
    requires at + 8 <= |s|
    ensures UnLe(s[at..at + 8]) == LongAt(s, at)
  {
    assert s[at..at + 8] == s[at..at + 4] + s[at + 4..at + 8];
    hide UnLe;
    UnLeConcat(s[at..at + 4], s[at + 4..at + 8]);
    UnLeWord(s, at);
    UnLeWord(s, at + 4);
    Ranges();
  }

  // ---------------------------------------------------------------- the fields

  /** Where field `i` starts. */
  function Start(widths: seq<nat>, i: nat): nat
    requires i <= |widths|
  {
    if i == 0 then 0 else Start(widths, i - 1) + widths[i - 1]
  }

  lemma {:induction false} StartLater(widths: seq<nat>, i: nat)
    requires 1 <= i <= |widths|
    ensures Start(widths, i) == widths[0] + Start(widths[1..], i - 1)
  {
    if i > 1 {
      StartLater(widths, i - 1);
    }
  }

  lemma {:induction false} StartInside(widths: seq<nat>, i: nat)
    requires i < |widths|
    ensures Start(widths, i) + widths[i] <= Span(widths)
  {
    if i > 0 {
      StartInside(widths[1..], i - 1);
      StartLater(widths, i);
    }
  }

  lemma {:induction false} UnpackAt(s: Bytes, widths: seq<nat>, i: nat)
    requires |s| == Span(widths) && i < |widths|
    ensures Start(widths, i) + widths[i] <= |s|
    ensures Unpack(s, widths)[i] == UnLe(s[Start(widths, i)..Start(widths, i) + widths[i]])
  {
    hide *;
    StartInside(widths, i);
    if i > 0 {
      UnpackRest(s, widths, i);
      UnpackAt(s[widths[0]..], widths[1..], i - 1);
      StartLater(widths, i);
      Within(s, widths[0], Start(widths[1..], i - 1), widths[i]);
    } else {
      UnpackFirst(s, widths);
    }
  }

  lemma UnpackFirst(s: Bytes, widths: seq<nat>)
    requires widths != [] && |s| == Span(widths)
    ensures Start(widths, 0) == 0 && Unpack(s, widths)[0] == UnLe(s[0..widths[0]])
  {
    assert s[0..widths[0]] == s[..widths[0]];
    hide UnLe;
  }

  lemma UnpackRest(s: Bytes, widths: seq<nat>, i: nat)
    requires |s| == Span(widths) && 0 < i < |widths|
    ensures widths[0] <= |s| && |s[widths[0]..]| == Span(widths[1..]) && Unpack(s, widths)[i] == Unpack(s[widths[0]..], widths[1..])[i - 1]
  {
    hide UnLe;
  }

  lemma Within(s: Bytes, w: nat, a: nat, n: nat)
    requires w + a + n <= |s|
    ensures s[w..][a..a + n] == s[w + a..w + a + n]
  {
  }

  lemma {:induction false} StartOfHeader(i: nat)
    requires i < 23
    ensures Start(HeaderFields(), i) == (if i <= 8 then 4 * i else 4 * i + 4) && HeaderFields()[i] == if i == 8 then 8 else 4
  {
    if i > 0 {
      StartOfHeader(i - 1);
    }
  }

  lemma {:induction false} StartOfEntry(i: nat)
    requires i < 8
    ensures Start(EntryFields(), i) == (if i <= 6 then 4 * i else 4 * i + 4) && EntryFields()[i] == if i >= 6 then 8 else 4
  {
    if i > 0 {
      StartOfEntry(i - 1);
    }
  }

  lemma HeaderField(buf: Bytes, i: nat)
    requires |buf| >= HEADER_BYTES && i < 23
    ensures Span(HeaderFields()) == 96
    ensures Unpack(buf[..96], HeaderFields())[i]
         == if i == 8 then LongAt(buf, 32) else WordAt(buf, if i < 8 then 4 * i else 4 * i + 4)
  {
    hide Unpack, HeaderFields, UnLe, Start, Span, WordAt, LongAt;
    Spans();
    StartOfHeader(i);
    UnpackAt(buf[..96], HeaderFields(), i);
    var at := if i <= 8 then 4 * i else 4 * i + 4;
    if i == 8 {
      assert buf[..96][32..40] == buf[32..40];
      UnLeLong(buf, 32);
    } else {
      assert buf[..96][at..at + 4] == buf[at..at + 4];
      UnLeWord(buf, at);
    }
  }

  /** The loader's header, number by number. */
  lemma HeaderWords(buf: Bytes)
    requires |buf| >= HEADER_BYTES
    ensures HeaderOf(buf) == Header(
      WordAt(buf, 0), WordAt(buf, 4), WordAt(buf, 8), WordAt(buf, 12), WordAt(buf, 16), WordAt(buf, 20), LongAt(buf, 32),
      Int32(WordAt(buf, 40)), Int32(WordAt(buf, 44)), Int32(WordAt(buf, 48)), Int32(WordAt(buf, 52)),
      Int32(WordAt(buf, 56)), Int32(WordAt(buf, 60)), Int32(WordAt(buf, 64)),
      WordAt(buf, 68), WordAt(buf, 72), WordAt(buf, 76))
  {
    Spans();
    var h := Unpack(buf[..96], HeaderFields());
    hide Unpack, HeaderFields, WordAt, LongAt, Int32;
    forall i | 0 <= i < 23
      ensures h[i] == if i == 8 then LongAt(buf, 32) else WordAt(buf, if i < 8 then 4 * i else 4 * i + 4)
    {
      HeaderField(buf, i);
    }
    assert forall i :: 0 <= i < 14 ==> h[9..][i] == h[9 + i];
  }

  lemma EntryField(s: Bytes, i: nat)
    requires |s| == 40 && i < 8
    ensures Span(EntryFields()) == 40
    ensures Unpack(s, EntryFields())[i]
         == if i == 6 then LongAt(s, 24) else if i == 7 then LongAt(s, 32) else WordAt(s, 4 * i)
  {
    hide Unpack, EntryFields, UnLe, Start, Span, WordAt, LongAt;
    Spans();
    StartOfEntry(i);
    UnpackAt(s, EntryFields(), i);
    if i == 6 {
      UnLeLong(s, 24);
    } else if i == 7 {
      UnLeLong(s, 32);
    } else {
      UnLeWord(s, 4 * i);
    }
  }

  lemma WordInPart(buf: Bytes, at: nat, end: nat, k: nat)
    requires at <= end <= |buf| && k + 4 <= end - at
    ensures WordAt(buf[at..end], k) == WordAt(buf, at + k)
  {
  }

  /** A directory entry, field by field. */
  lemma EntryWords(buf: Bytes, at: nat)
    requires at + ENTRY_BYTES <= |buf|
    ensures EntryAt(buf, at) == Entry(
      buf[at..at + 24], WordAt(buf, at + 24), WordAt(buf, at + 28),
      [WordAt(buf, at + 32), WordAt(buf, at + 36), WordAt(buf, at + 40), WordAt(buf, at + 44)],
      LongAt(buf, at + 48), LongAt(buf, at + 56))
  {
    hide Unpack, EntryFields, WordAt, LongAt, Span;
    Spans();
    var v := Unpack(buf[at + NAME_BYTES..at + ENTRY_BYTES], EntryFields());
    EntryNumber(buf, at, 0);
    EntryNumber(buf, at, 1);
    EntryNumber(buf, at, 2);
    EntryNumber(buf, at, 3);
    EntryNumber(buf, at, 4);
    EntryNumber(buf, at, 5);
    EntryNumber(buf, at, 6);
    EntryNumber(buf, at, 7);
    assert v[2..6] == [v[2], v[3], v[4], v[5]];
  }

  lemma EntryNumber(buf: Bytes, at: nat, i: nat)
    requires at + ENTRY_BYTES <= |buf| && i < 8
    ensures Span(EntryFields()) == 40
    ensures Unpack(buf[at + NAME_BYTES..at + ENTRY_BYTES], EntryFields())[i]
         == if i >= 6 then LongAt(buf, at + 8 * i) else WordAt(buf, at + 24 + 4 * i)
  {
    hide Unpack, EntryFields, WordAt;
    EntryField(buf[at + NAME_BYTES..at + ENTRY_BYTES], i);
    if i >= 6 {
      WordInPart(buf, at + 24, at + 64, 8 * i - 24);
      WordInPart(buf, at + 24, at + 64, 8 * i - 20);
    } else {
      WordInPart(buf, at + 24, at + 64, 4 * i);
    }
  }

  /** So a written file holds every number of the configuration where the structure has it. */
  lemma WrittenWords(c: Config, ts: seq<Tensor>, buf: Bytes)
    requires Layout(c, ts, buf)
    ensures |buf| >= HEADER_BYTES
    ensures WordAt(buf, 16) == |ts| && LongAt(buf, 32) == |buf|
    ensures WordAt(buf, 40) == c.dim && WordAt(buf, 44) == c.hidden && WordAt(buf, 48) == c.nLayers
    ensures WordAt(buf, 52) == c.nHeads && WordAt(buf, 56) == c.nKvHeads && WordAt(buf, 60) == c.vocab
    ensures WordAt(buf, 64) == c.seqLen && WordAt(buf, 68) == c.qtype && WordAt(buf, 72) == 32
    ensures WordAt(buf, 76) == c.shared && WordAt(buf, 80) == c.theta && WordAt(buf, 84) == c.eps
    ensures WordAt(buf, 88) == c.bos && WordAt(buf, 92) == c.eos
  {
    LaidInside(c, ts, buf, 0);
    HeaderReads(c, ts, buf);
    HeaderWords(buf);
    ConfigWord(c, ts, buf, 0);
    ConfigWord(c, ts, buf, 1);
    ConfigWord(c, ts, buf, 2);
    ConfigWord(c, ts, buf, 3);
    ConfigWord(c, ts, buf, 4);
    ConfigWord(c, ts, buf, 5);
    ConfigWord(c, ts, buf, 6);
    ConfigWord(c, ts, buf, 7);
    ConfigWord(c, ts, buf, 8);
    ConfigWord(c, ts, buf, 9);
    ConfigWord(c, ts, buf, 10);
    ConfigWord(c, ts, buf, 11);
    ConfigWord(c, ts, buf, 12);
    ConfigWord(c, ts, buf, 13);
    hide WordAt, LongAt, Layout, HeaderOf, PayloadAt;
  }

  lemma ConfigWord(c: Config, ts: seq<Tensor>, buf: Bytes, i: nat)
    requires Layout(c, ts, buf) && i < 14 && |buf| >= HEADER_BYTES
    ensures WordAt(buf, 40 + 4 * i) == ConfigVals(c)[i]
  {
    hide *;
    HeaderNumbers(c, ts, buf);
    HeaderField(buf, 9 + i);
    ConfigValue(c, |ts|, DataAt(|ts|), |buf|, i);
  }

  lemma ConfigValue(c: Config, count: nat, dataAt: nat, total: nat, i: nat)
    requires i < 14
    ensures HeaderVals(c, count, dataAt, total)[9 + i] == ConfigVals(c)[i]
  {
    hide ConfigVals, TopVals;
  }
}
