/**
  What an opened model is worth, whatever the bytes of the file: every bound slot
  is the offset of a directory entry with the right name, type and shape that
  lies in the file.
 */
module OpenedModel {
  import opened EtqFormat
  import opened ModelOpen
  import opened Words

  function EntryNo(h: Header, buf: Bytes, i: nat): Entry
    requires h.table + ENTRY_BYTES * (i + 1) <= |buf|
  {
    EntryAt(buf, h.table + ENTRY_BYTES * i)
  }

  /** The payload starts aligned and ends in the file, unless its end is past what 64 bits hold. */
  predicate Placed(h: Header, e: Entry) {
    e.offset % ALIGN == 0 && (e.offset + e.nbytes <= h.fileBytes || e.offset + e.nbytes >= U64)
  }

  predicate GlobalEntry(h: Header, e: Entry, k: nat, off: nat)
    requires Sound(h) && k < GLOBALS && |e.shape| == 4
  {
    UpToNul(e.name) == GlobalName(k) && Matches(e, GlobalWant(h, k)) && e.offset == off && Placed(h, e)
  }

  predicate LayerEntry(h: Header, e: Entry, l: nat, j: nat, off: nat)
    requires Sound(h) && j < SUFFIXES && |e.shape| == 4 && |e.name| == NAME_BYTES
  {
    && LayerOf(e.name) == l && UpToNul(e.name[5..]) == SuffixName(j) && Matches(e, LayerWant(h, j))
    && e.offset == off && Placed(h, e)
  }

  ghost predicate GlobalBacked(h: Header, buf: Bytes, n: nat, k: nat, off: nat)
    requires Sound(h) && k < GLOBALS && h.table + ENTRY_BYTES * n <= |buf|
  {
    exists i :: 0 <= i < n && GlobalEntry(h, EntryNo(h, buf, i), k, off)
  }

  ghost predicate LayerBacked(h: Header, buf: Bytes, n: nat, l: nat, j: nat, off: nat)
    requires Sound(h) && j < SUFFIXES && h.table + ENTRY_BYTES * n <= |buf|
  {
    exists i :: 0 <= i < n && LayerEntry(h, EntryNo(h, buf, i), l, j, off)
  }

  /** Everything found so far stands in one of the first `n` entries. */
  ghost predicate Backed(h: Header, buf: Bytes, n: nat, s: Slots)
    requires Sound(h) && s.For(h) && h.table + ENTRY_BYTES * n <= |buf|
  {
    && (forall k :: 0 <= k < GLOBALS && s.found[k] ==> GlobalBacked(h, buf, n, k, s.globals[k]))
    && (forall l, j :: 0 <= l < h.nLayers && 0 <= j < SUFFIXES && s.layers[l][j] != 0 ==>
          LayerBacked(h, buf, n, l, j, s.layers[l][j]))
  }

  lemma {:induction false} SuffixIs(s: Bytes, j: nat)
    requires j <= SUFFIXES
    ensures SuffixOf(s, j) < SUFFIXES ==> s == SuffixName(SuffixOf(s, j))
    decreases SUFFIXES - j
  {
    hide SuffixName;
    if j < SUFFIXES && s != SuffixName(j) {
      SuffixIs(s, j + 1);
    }
  }

  lemma {:induction false} GlobalIs(found: seq<bool>, name: Bytes, k: nat)
    requires |found| == GLOBALS && k <= GLOBALS
    ensures FirstGlobal(found, name, k) < GLOBALS ==> name == GlobalName(FirstGlobal(found, name, k))
    decreases GLOBALS - k
  {
    hide GlobalName;
    if k < GLOBALS && (found[k] || name != GlobalName(k)) {
      GlobalIs(found, name, k + 1);
    }
  }

  lemma MatchBinds(h: Header, s: Slots, e: Entry)
    requires Sound(h) && s.For(h) && |e.shape| == 4 && |e.name| == NAME_BYTES && Placed(h, e) && MatchStep(h, s, e).0 == OK
    ensures var t := MatchStep(h, s, e).1;
      && t.layers == s.layers
      && (forall k :: 0 <= k < GLOBALS && t.found[k] ==>
            (s.found[k] && t.globals[k] == s.globals[k]) || GlobalEntry(h, e, k, t.globals[k]))
  {
    GlobalIs(s.found, UpToNul(e.name), 0);
    hide GlobalName, FirstGlobal, UpToNul, GlobalWant, Matches, Placed;
  }

  lemma LayerBinds(h: Header, s: Slots, e: Entry)
    requires Sound(h) && s.For(h) && |e.shape| == 4 && |e.name| == NAME_BYTES && Placed(h, e) && LayerStep(h, s, e).0 == OK
    ensures var t := LayerStep(h, s, e).1;
      && t.globals == s.globals && t.found == s.found
      && (forall l, j :: 0 <= l < h.nLayers && 0 <= j < SUFFIXES ==>
            t.layers[l][j] == s.layers[l][j] || LayerEntry(h, e, l, j, t.layers[l][j]))
  {
    SuffixIs(UpToNul(e.name[5..]), 0);
    hide SuffixName, SuffixOf, UpToNul, LayerOf, LayerWant, Matches, Placed;
  }

  /** What one entry may change: the global of its name, and the slot of its layer and suffix. */
  lemma EntryBinds(h: Header, s: Slots, e: Entry)
    requires Sound(h) && s.For(h) && |e.shape| == 4 && |e.name| == NAME_BYTES && EntryStep(h, s, e).0 == OK
    ensures var t := EntryStep(h, s, e).1;
      && (forall k :: 0 <= k < GLOBALS && t.found[k] ==>
            (s.found[k] && t.globals[k] == s.globals[k]) || GlobalEntry(h, e, k, t.globals[k]))
      && (forall l, j :: 0 <= l < h.nLayers && 0 <= j < SUFFIXES ==>
            t.layers[l][j] == s.layers[l][j] || LayerEntry(h, e, l, j, t.layers[l][j]))
  {
    EntryPlaced(h, s, e);
    hide GlobalEntry, LayerEntry, MatchStep, LayerStep, Placed;
    MatchBinds(h, s, e);
    LayerBinds(h, MatchStep(h, s, e).1, e);
  }

  lemma EntryPlaced(h: Header, s: Slots, e: Entry)
    requires Sound(h) && s.For(h) && |e.shape| == 4 && |e.name| == NAME_BYTES && EntryStep(h, s, e).0 == OK
    ensures Placed(h, e)
  {
    hide MatchStep, LayerStep;
  }

  lemma BackedStep(h: Header, buf: Bytes, n: nat, s: Slots)
    requires Sound(h) && s.For(h) && h.table + ENTRY_BYTES * (n + 1) <= |buf| && Backed(h, buf, n, s)
    requires EntryStep(h, s, EntryNo(h, buf, n)).0 == OK
    ensures Backed(h, buf, n + 1, EntryStep(h, s, EntryNo(h, buf, n)).1)
  {
    var e := EntryNo(h, buf, n);
    var t := EntryStep(h, s, e).1;
    EntryBinds(h, s, e);
    hide EntryStep, GlobalEntry, LayerEntry, EntryNo;
    forall k | 0 <= k < GLOBALS && t.found[k]
      ensures GlobalBacked(h, buf, n + 1, k, t.globals[k])
    {
      if GlobalEntry(h, e, k, t.globals[k]) {
      } else {
        assert GlobalBacked(h, buf, n, k, s.globals[k]);
      }
    }
    forall l, j | 0 <= l < h.nLayers && 0 <= j < SUFFIXES && t.layers[l][j] != 0
      ensures LayerBacked(h, buf, n + 1, l, j, t.layers[l][j])
    {
      if LayerEntry(h, e, l, j, t.layers[l][j]) {
      } else {
        assert LayerBacked(h, buf, n, l, j, s.layers[l][j]);
      }
    }
  }

  lemma {:induction false} WalkBacked(h: Header, buf: Bytes, n: nat)
    requires Sound(h) && h.table + ENTRY_BYTES * n <= |buf| && Walk(h, buf, n).0 == OK
    ensures Backed(h, buf, n, Walk(h, buf, n).1)
  {
    hide EntryStep, EntryAt, Backed, Sound, Slots.For;
    if n == 0 {
      NothingBacked(h, buf);
    } else {
      WalkBacked(h, buf, n - 1);
      BackedStep(h, buf, n - 1, Walk(h, buf, n - 1).1);
    }
  }

  lemma NothingBacked(h: Header, buf: Bytes)
    requires Sound(h) && h.table <= |buf|
    ensures Backed(h, buf, 0, Empty(h))
  {
  }

  /**
    An opened model: every tensor the decode step needs is bound, to an entry of
    its own name, of the wanted type and shape, that lies in the file; a shared
    classifier is the embedding.
   */
  lemma OpenedIsBacked(buf: Bytes, base: nat, cap: nat)
    requires Open(buf, base, cap).Opened?
    ensures var (h, s) := (Open(buf, base, cap).h, Open(buf, base, cap).s);
      && h == HeaderOf(buf) && HeaderRc(h, |buf|) == OK && h.table + ENTRY_BYTES * h.count <= |buf|
      && (forall l, j :: 0 <= l < h.nLayers && 0 <= j < SUFFIXES ==> LayerBacked(h, buf, h.count, l, j, s.layers[l][j]))
      && (forall k :: 0 <= k < GLOBALS && s.found[k] && !(k == 2 && h.shared != 0) ==> GlobalBacked(h, buf, h.count, k, s.globals[k]))
      && (forall k :: 0 <= k < GLOBALS && GlobalWant(h, k).required ==> s.found[k])
      && (h.shared != 0 ==> s.globals[2] == s.globals[0])
  {
    var h := HeaderOf(buf);
    OpenedWalk(buf, base, cap);
    hide Open, HeaderOf, HeaderRc, Walk, LayerBacked, GlobalBacked, GlobalWant;
    WalkBacked(h, buf, h.count);
  }

  lemma OpenedWalk(buf: Bytes, base: nat, cap: nat)
    requires Open(buf, base, cap).Opened?
    ensures var h := HeaderOf(buf);
      && Open(buf, base, cap).h == h && Sound(h) && HeaderRc(h, |buf|) == OK
      && h.table + ENTRY_BYTES * h.count <= |buf| && Walk(h, buf, h.count).0 == OK
      && Finish(h, Walk(h, buf, h.count).1) == (OK, Open(buf, base, cap).s)
  {
    hide HeaderOf, HeaderRc, Walk, Finish;
    var h := HeaderOf(buf);
    assert Readable(h, |buf|) == h.count;
    ReadAll(h, buf);
    if h.count == 0 {
      EmptyMisses(h, buf);
    }
  }

  lemma EmptyMisses(h: Header, buf: Bytes)
    requires Sound(h)
    ensures Finish(h, Walk(h, buf, 0).1).0 != OK
  {
    assert GlobalWant(h, 0).required && !Empty(h).found[0];
  }
}
