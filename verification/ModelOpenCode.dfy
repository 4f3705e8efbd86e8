/**
  tq_model_open of core/src/tq_model.c, in place: the directory is read through
  the store 32 entries at a time and the model's fields are filled as it goes.
 */
module ModelOpenCode {
  import opened Words
  import opened EtqFormat
  import opened ModelOpen
  import Arena
  import Matvec

  /** A C string in a fixed-width field. */
  lemma {:induction false} UpToNulIs(field: Bytes, want: Bytes)
    requires NulFree(want) && |want| < |field|
    ensures UpToNul(field) == want <==> field[..|want|] == want && field[|want|] == 0
  {
    if want == [] {
      assert field[..0] == [];
    } else {
      UpToNulIs(field[1..], want[1..]);
      assert want == [want[0]] + want[1..];
      assert field[..|want|] == [field[0]] + field[1..][..|want| - 1];
      assert field[1..][|want| - 1] == field[|want|];
    }
  }

  /** tq_name_eq. */
  method NameEq(field: Bytes, want: Bytes) returns (eq: bool)
    requires |field| == NAME_BYTES && |want| < NAME_BYTES && NulFree(want)
    ensures eq == (UpToNul(field) == want)
  {
    UpToNulIs(field, want);
    hide UpToNul;
    var i := 0;
    while i < NAME_BYTES
      invariant 0 <= i <= |want| && field[..i] == want[..i]
    {
      var c := field[i];
      var w := if i < |want| then want[i] else 0;
      if c != w {
        if i < |want| {
          assert field[..|want|][i] != want[i];
        }
        return false;
      }
      if c == 0 {
        assert i == |want| && want[..i] == want;
        return true;
      }
      i := i + 1;
    }
    return true;
  }

  class TqModel {
    var globals: seq<nat>
    var found: seq<bool>
    var blobBytes: nat
    var layers: seq<seq<nat>>

    constructor ()
    {
      globals, found, blobBytes, layers := [], [], 0, [];
    }

    ghost function State(): Slots
      reads this
    {
      Slots(globals, found, blobBytes, layers)
    }

    /** tq_match: the first entry of the list not found yet whose name this is. */
    method Match(h: Header, e: Entry) returns (rc: int32)
      requires Sound(h) && State().For(h) && |e.shape| == 4 && |e.name| == NAME_BYTES
      modifies this
      ensures State().For(h) && (rc, State()) == MatchStep(h, old(State()), e)
    {
      ghost var name := UpToNul(e.name);
      for i := 0 to GLOBALS
        invariant State() == old(State()) && State().For(h)
        invariant FirstGlobal(found, name, 0) == FirstGlobal(found, name, i)
      {
        NamesNulFree(i, 0);
        hide UpToNul, GlobalName, SuffixName, Matches, GlobalWant, Sound, NulFree;
        var same := NameEq(e.name, GlobalName(i));
        if !found[i] && same {
          if !Matches(e, GlobalWant(h, i)) {
            return ERR_SHAPE;
          }
          globals := globals[i := e.offset];
          if i == 5 {
            blobBytes := e.nbytes % U32;
          }
          found := found[i := true];
          return OK;
        }
      }
      return OK;
    }

    /** The dispatch on "lNNN." and a suffix. */
    method BindLayer(h: Header, e: Entry) returns (rc: int32)
      requires Sound(h) && State().For(h) && |e.shape| == 4 && |e.name| == NAME_BYTES
      modifies this
      ensures State().For(h) && (rc, State()) == LayerStep(h, old(State()), e)
    {
      hide UpToNul, SuffixOf, Matches, LayerWant, Sound, LayerOf;
      var l := LayerOf(e.name);
      if l < 0 || l >= h.nLayers {
        return OK;
      }
      var j := SuffixOf(UpToNul(e.name[5..]), 0);
      if j == SUFFIXES {
        return OK;
      }
      if !Matches(e, LayerWant(h, j)) {
        return ERR_SHAPE;
      }
      var row: seq<nat> := layers[l][j := e.offset];
      layers := layers[l := row];
      return OK;
    }

    /** One directory entry. */
    method BindEntry(h: Header, e: Entry) returns (rc: int32)
      requires Sound(h) && State().For(h) && |e.shape| == 4 && |e.name| == NAME_BYTES
      modifies this
      ensures State().For(h) && (rc, State()) == EntryStep(h, old(State()), e)
    {
      hide MatchStep, LayerStep, Sound, Slots.For;
      if (e.offset + e.nbytes) % U64 > h.fileBytes {
        return ERR_TRUNCATED;
      }
      if e.offset % ALIGN != 0 {
        return ERR_SHAPE;
      }
      rc := Match(h, e);
      if rc != OK {
        return;
      }
      rc := BindLayer(h, e);
    }

    /** The entries of one chunk. */
    method BindChunk(h: Header, ghost data: Bytes, idx: nat, take: nat, view: Bytes) returns (rc: int32)
      requires Sound(h) && take > 0 && h.table + ENTRY_BYTES * (idx + take) <= |data|
      requires view == data[h.table + ENTRY_BYTES * idx..h.table + ENTRY_BYTES * (idx + take)]
      requires State().For(h) && Walk(h, data, idx) == (OK, State())
      modifies this
      ensures State().For(h) && Walk(h, data, idx + take).0 == rc
      ensures rc == OK ==> Walk(h, data, idx + take) == (OK, State())
    {
      hide Sound, Slots.For, EntryStep, EntryAt, Walk;
      for k := 0 to take
        invariant State().For(h) && Walk(h, data, idx + k) == (OK, State())
      {
        EntryInChunk(h, data, idx, take, k);
        WalkNext(h, data, idx + k);
        rc := BindEntry(h, EntryAt(view, ENTRY_BYTES * k));
        if rc != OK {
          WalkStops(h, data, idx + k + 1, idx + take);
          return;
        }
      }
      return OK;
    }

    /** One view of the directory and its entries. */
    method NextChunk(h: Header, st: Matvec.Store, idx: nat, take: nat) returns (rc: int32)
      requires Sound(h) && 0 < take <= CHUNK && idx + take <= h.count && (idx > 0 ==> h.table + ENTRY_BYTES * idx <= |st.data|)
      requires State().For(h) && Walk(h, st.data, idx) == (OK, State())
      modifies this, st`log, st.tile
      ensures rc == OK ==> h.table + ENTRY_BYTES * (idx + take) <= |st.data|
      ensures rc == OK ==> State().For(h) && Walk(h, st.data, idx + take) == (OK, State())
      ensures Steady(st) ==>
        if h.table + ENTRY_BYTES * (idx + take) <= |st.data| then rc == Walk(h, st.data, idx + take).0 else rc == ERR_TRUNCATED
    {
      hide Sound, Slots.For, EntryStep, EntryAt, Walk;
      var ok, view := st.View(h.table + ENTRY_BYTES * idx, take * ENTRY_BYTES);
      if !ok {
        return ERR_TRUNCATED;
      }
      rc := BindChunk(h, st.data, idx, take, view);
    }

    /** The directory, 32 entries at a time. */
    method BindDirectory(h: Header, st: Matvec.Store) returns (rc: int32)
      requires Sound(h) && State() == Empty(h)
      modifies this, st`log, st.tile
      ensures rc == OK ==> Inside(h, |st.data|) && State().For(h) && Walk(h, st.data, h.count) == (OK, State())
      ensures Steady(st) ==> rc == DirectoryRc(h, st.data)
    {
      hide Sound, Slots.For, Walk, Empty, Steady, Readable;
      var idx := 0;
      WalkNothing(h, st.data);
      while idx < h.count
        invariant idx <= h.count && (idx > 0 ==> h.table + ENTRY_BYTES * idx <= |st.data|)
        invariant idx % CHUNK == 0 || idx == h.count
        invariant State().For(h) && Walk(h, st.data, idx) == (OK, State())
      {
        var take := h.count - idx;
        if take > CHUNK {
          take := CHUNK;
        }
        rc := NextChunk(h, st, idx, take);
        if rc != OK {
          ChunkFails(h, st.data, idx, take);
          return;
        }
        idx := idx + take;
      }
      ReadAll(h, st.data);
      return OK;
    }

    /** What is missing, and the shared output head. */
    method Complete(h: Header) returns (rc: int32)
      requires Sound(h) && State().For(h)
      modifies this
      ensures (rc, State()) == Finish(h, old(State()))
    {
      for k := 0 to GLOBALS
        invariant forall i :: 0 <= i < k ==> !(GlobalWant(h, i).required && !found[i])
        invariant State() == old(State())
      {
        if GlobalWant(h, k).required && !found[k] {
          return ERR_MISSING;
        }
      }
      if h.shared != 0 {
        globals := globals[2 := globals[0]];
      }
      for l := 0 to h.nLayers
        invariant forall i, j :: 0 <= i < l && 0 <= j < SUFFIXES ==> layers[i][j] != 0
      {
        var lo := layers[l];
        if lo[0] == 0 || lo[1] == 0 || lo[2] == 0 || lo[3] == 0 || lo[4] == 0 || lo[5] == 0 || lo[6] == 0 || lo[7] == 0 || lo[8] == 0 {
          return ERR_MISSING;
        }
      }
      return OK;
    }

    /** tq_model_open. */
    method TqOpen(st: Matvec.Store, arena: Arena.Arena) returns (rc: int32)
      requires arena.used == 0 && !arena.full
      modifies this, st`log, st.tile, arena
      ensures rc == OK ==> Open(st.data, arena.base, arena.cap).Opened?
      ensures rc == OK ==> Open(st.data, arena.base, arena.cap).s == State()
      ensures var o := Open(st.data, arena.base, arena.cap);
        Steady(st) ==> rc == if o.Opened? then OK else o.rc
    {
      hide HeaderOf, HeaderRc, Walk, DirectoryRc, Inside, Finish, Sound, Slots.For, Empty, Arena.Cursor, Arena.Spot;
      var ok, view := st.View(0, HEADER_BYTES);
      if !ok {
        return ERR_TRUNCATED;
      }
      HeaderViewed(st.data, view);
      var h := HeaderOf(view);
      rc := HeaderRc(h, |st.data|);
      if rc != OK {
        return;
      }
      HeaderSound(h, |st.data|);
      var bytes := LAYER_OFFSETS * h.nLayers;
      arena.AskedEnds([bytes]);
      Arena.CursorOne(arena.base, bytes);
      var at := arena.Carve(bytes, [bytes], 0);
      arena.AskedEnds([bytes]);
      if at < 0 {
        return ERR_NOMEM;
      }
      globals, found, blobBytes, layers := seq(GLOBALS, _ => 0), seq(GLOBALS, _ => false), 0, seq(h.nLayers, _ => seq(SUFFIXES, _ => 0));
      IsEmpty(h, State());
      rc := BindDirectory(h, st);
      if rc != OK {
        return;
      }
      ReadAll(h, st.data);
      rc := Complete(h);
    }
  }

  lemma HeaderViewed(data: Bytes, view: Bytes)
    requires |data| >= HEADER_BYTES && view == data[0..0 + HEADER_BYTES]
    ensures |view| == HEADER_BYTES && HeaderOf(view) == HeaderOf(data)
  {
    assert view[..96] == data[..96];
    hide Unpack, HeaderFields;
  }

  lemma HeaderSound(h: Header, storeBytes: nat)
    requires HeaderRc(h, storeBytes) == OK
    ensures Sound(h)
  {
  }

  lemma IsEmpty(h: Header, s: Slots)
    requires Sound(h) && |s.globals| == |s.found| == GLOBALS && |s.layers| == h.nLayers && s.blobBytes == 0
    requires forall k :: 0 <= k < GLOBALS ==> s.globals[k] == 0 && !s.found[k]
    requires forall l :: 0 <= l < h.nLayers ==> |s.layers[l]| == SUFFIXES && forall j :: 0 <= j < SUFFIXES ==> s.layers[l][j] == 0
    ensures s == Empty(h)
  {
    assert s.globals == Empty(h).globals && s.found == Empty(h).found;
    forall l | 0 <= l < h.nLayers
      ensures s.layers[l] == Empty(h).layers[l]
    {
    }
    assert s.layers == Empty(h).layers;
  }

  lemma WalkNothing(h: Header, data: Bytes)
    requires Sound(h)
    ensures Empty(h).For(h) && Walk(h, data, 0) == (OK, Empty(h))
  {
  }

  /** The store's views succeed wherever the file reaches. */
  ghost predicate Steady(st: Matvec.Store) {
    st.mapped || (st.tile.Length >= CHUNK * ENTRY_BYTES && forall o, n :: !st.fault(o, n))
  }

  /** The first chunk that fails decides. */
  lemma ChunkFails(h: Header, data: Bytes, idx: nat, take: nat)
    requires Sound(h) && idx < h.count && idx % CHUNK == 0 && take == (if h.count - idx > CHUNK then CHUNK else h.count - idx)
    requires (idx > 0 ==> h.table + ENTRY_BYTES * idx <= |data|) && Walk(h, data, idx).0 == OK
    ensures h.table + ENTRY_BYTES * (idx + take) <= |data| ==>
      (Walk(h, data, idx + take).0 != OK ==> DirectoryRc(h, data) == Walk(h, data, idx + take).0)
    ensures h.table + ENTRY_BYTES * (idx + take) > |data| ==> DirectoryRc(h, data) == ERR_TRUNCATED
  {
    hide Sound, Walk;
    NextReadable(h, |data|, idx, take);
    hide Readable;
    if h.table + ENTRY_BYTES * (idx + take) <= |data| && Walk(h, data, idx + take).0 != OK {
      WalkStops(h, data, idx + take, Readable(h, |data|));
    }
  }

  lemma EntryInChunk(h: Header, data: Bytes, idx: nat, take: nat, k: nat)
    requires k < take && h.table + ENTRY_BYTES * (idx + take) <= |data|
    ensures var view := data[h.table + ENTRY_BYTES * idx..h.table + ENTRY_BYTES * (idx + take)];
      ENTRY_BYTES * k + ENTRY_BYTES <= |view|
      && EntryAt(view, ENTRY_BYTES * k) == EntryAt(data, h.table + ENTRY_BYTES * (idx + k))
  {
    var from, at := h.table + ENTRY_BYTES * idx, ENTRY_BYTES * k;
    var view := data[from..h.table + ENTRY_BYTES * (idx + take)];
    Matvec.Subslice(data, from, from + |view|, at, at + NAME_BYTES);
    Matvec.Subslice(data, from, from + |view|, at + NAME_BYTES, at + ENTRY_BYTES);
    hide Unpack, EntryFields;
  }

  lemma WalkNext(h: Header, data: Bytes, n: nat)
    requires Sound(h) && h.table + ENTRY_BYTES * (n + 1) <= |data| && Walk(h, data, n).0 == OK
    ensures Walk(h, data, n + 1) == EntryStep(h, Walk(h, data, n).1, EntryAt(data, h.table + ENTRY_BYTES * n))
  {
    hide EntryStep, EntryAt, Sound;
  }
}
