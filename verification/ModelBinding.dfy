/**
  Opening a written .etq file: which files tq_model_open accepts, and that every
  slot is bound to the tensor of its name.
 */
module ModelBinding {
  import opened Words
  import opened EtqFormat
  import opened ModelOpen
  import Arena

  // ------------------------------------------------------------------- names

  function Decimal(l: nat): (r: Bytes)
    ensures |r| >= 3
  {
    if l < 1000 then [48 + l / 100, 48 + l / 10 % 10, 48 + l % 10] else Decimal(l / 10) + [48 + l % 10]
  }

  /** "l%03d." and the suffix. */
  function LayerName(l: nat, j: nat): Bytes
    requires j < SUFFIXES
  {
    [108] + Decimal(l) + [46] + SuffixName(j)
  }

  lemma GlobalNamesDiffer(a: nat, b: nat)
    requires a < GLOBALS && b < GLOBALS
    ensures GlobalName(a) == GlobalName(b) ==> a == b
    ensures |GlobalName(a)| >= 3 && GlobalName(a)[0] != 108 && |GlobalName(a)| <= 10
  {
    var s, t := GlobalName(a), GlobalName(b);
    assert |s| == |t| && |s| >= 8 ==> s[4] == t[4] || s != t;
    assert |s| == |t| && |s| >= 8 ==> s[5] == t[5] || s != t;
  }

  lemma SuffixNamesDiffer(a: nat, b: nat)
    requires a < SUFFIXES && b < SUFFIXES
    ensures SuffixName(a) == SuffixName(b) ==> a == b
    ensures 2 <= |SuffixName(a)| <= 7
  {
    var s, t := SuffixName(a), SuffixName(b);
    assert |s| == |t| && |s| >= 7 ==> s[4] == t[4] || s != t;
    assert |s| == |t| ==> s[1] == t[1] || s != t;
  }

  lemma {:induction false} FirstGlobalIs(found: seq<bool>, name: Bytes, k: nat, from: nat)
    requires |found| == GLOBALS && from <= k < GLOBALS && name == GlobalName(k) && !found[k]
    ensures FirstGlobal(found, name, from) == k
    decreases k - from
  {
    hide GlobalName;
    if from < k {
      GlobalNamesDiffer(from, k);
      FirstGlobalIs(found, name, k, from + 1);
    }
  }

  /** What the search for a global returns, once the names are known to differ. */
  lemma {:induction false} FirstGlobalSpec(found: seq<bool>, name: Bytes, from: nat)
    requires |found| == GLOBALS && from <= GLOBALS
    ensures var r := FirstGlobal(found, name, from);
      if r < GLOBALS then name == GlobalName(r) && !found[r]
      else forall k :: from <= k < GLOBALS ==> name != GlobalName(k) || found[k]
    decreases GLOBALS - from
  {
    hide GlobalName;
    if from < GLOBALS && !(!found[from] && name == GlobalName(from)) {
      FirstGlobalSpec(found, name, from + 1);
    }
  }

  lemma {:induction false} SuffixSpec(s: Bytes, from: nat)
    requires from <= SUFFIXES
    ensures var r := SuffixOf(s, from);
      if r < SUFFIXES then s == SuffixName(r) else forall j :: from <= j < SUFFIXES ==> s != SuffixName(j)
    decreases SUFFIXES - from
  {
    hide SuffixName;
    if from < SUFFIXES && s != SuffixName(from) {
      SuffixSpec(s, from + 1);
    }
  }

  /** "l" three digits "." ... */
  predicate LayerForm(name: Bytes) {
    |name| >= 5 && name[0] == 108 && name[4] == 46
  }

  predicate Digit(c: byte) {
    48 <= c <= 57
  }

  /** A name of the layer form has decimal digits in it. */
  predicate Canonical(name: Bytes) {
    LayerForm(name) ==> Digit(name[1]) && Digit(name[2]) && Digit(name[3])
  }

  function Number(name: Bytes): (r: nat)
    requires LayerForm(name) && Canonical(name)
    ensures r < 1000
  {
    (name[1] as int - 48) * 100 + (name[2] as int - 48) * 10 + (name[3] as int - 48)
  }

  /** Three digits of a number below 1000. */
  lemma ThreeDigits(l: nat)
    requires l < 1000
    ensures l / 100 < 10 && l / 10 % 10 < 10 && l % 10 < 10 && l / 100 * 100 + l / 10 % 10 * 10 + l % 10 == l
  {
    NumberDigits(l / 10 / 10, l / 10 % 10, l % 10);
  }

  lemma DecimalDigits(l: nat)
    requires l < 1000
    ensures |Decimal(l)| == 3 && Digit(Decimal(l)[0]) && Digit(Decimal(l)[1]) && Digit(Decimal(l)[2])
    ensures (Decimal(l)[0] as int - 48) * 100 + (Decimal(l)[1] as int - 48) * 10 + (Decimal(l)[2] as int - 48) == l
  {
    ThreeDigits(l);
    assert Decimal(l) == [48 + l / 100, 48 + l / 10 % 10, 48 + l % 10];
    hide Decimal;
  }

  lemma NumberDigits(a: nat, b: nat, c: nat)
    requires a < 10 && b < 10 && c < 10
    ensures var l := a * 100 + b * 10 + c;
      l < 1000 && l / 100 == a && l / 10 % 10 == b && l % 10 == c
  {
    var l, q := a * 100 + b * 10 + c, a * 10 + b;
    assert l == 100 * a + (b * 10 + c);
    assert l == 10 * q + c;
    assert l / 10 == q;
  }

  lemma DigitsOfNumber(a: byte, b: byte, c: byte)
    requires Digit(a) && Digit(b) && Digit(c)
    ensures var l := (a as int - 48) * 100 + (b as int - 48) * 10 + (c as int - 48);
      0 <= l < 1000 && Decimal(l) == [a, b, c]
  {
    NumberDigits(a - 48, b - 48, c - 48);
  }

  lemma {:induction false} DecimalLong(l: nat)
    requires l >= 1000
    ensures |Decimal(l)| >= 4 && Digit(Decimal(l)[3])
  {
    if l < 10000 {
      assert |Decimal(l / 10)| == 3;
    } else {
      DecimalLong(l / 10);
    }
  }

  /** Of a canonical name: it is that of layer l, suffix j exactly when it parses as those. */
  lemma LayerNameParses(name: Bytes, l: nat, j: nat)
    requires Canonical(name) && l < 1000 && j < SUFFIXES
    ensures name == LayerName(l, j) <==> LayerForm(name) && Number(name) == l && name[5..] == SuffixName(j)
  {
    DecimalDigits(l);
    hide SuffixName;
    var want := LayerName(l, j);
    assert want[0] == 108 && want[4] == 46 && want[5..] == SuffixName(j);
    assert want[1] == Decimal(l)[0] && want[2] == Decimal(l)[1] && want[3] == Decimal(l)[2];
    if LayerForm(name) && Number(name) == l && name[5..] == SuffixName(j) {
      DigitsOfNumber(name[1], name[2], name[3]);
      assert name == [108] + [name[1], name[2], name[3]] + [46] + name[5..];
    }
  }

  /** From layer 1000 on the written name no longer has a dot in the fifth place. */
  lemma LongLayerName(l: nat, j: nat)
    requires l >= 1000 && j < SUFFIXES
    ensures !LayerForm(LayerName(l, j))
  {
    DecimalLong(l);
    assert LayerName(l, j)[4] == Decimal(l)[3];
  }

  // ----------------------------------------------------------------- one entry

  function FullName(name: Bytes): (r: Bytes)
    requires |name| < NAME_BYTES
    ensures |r| == NAME_BYTES
  {
    name + Zeros(NAME_BYTES - |name|)
  }

  /** The C structure a written directory entry reads back as. */
  function EntryFor(t: Tensor, off: nat): (e: Entry)
    requires t.Valid()
    ensures |e.name| == NAME_BYTES && |e.shape| == 4
  {
    Entry(FullName(t.name), t.dtype, |t.shape|, Shape4(t.shape), off, |t.payload|)
  }

  lemma EntryReads(buf: Bytes, at: nat, t: Tensor, off: nat)
    requires t.Valid() && Fits(EntryVals(t, off), EntryFields()) && Holds(buf, at, EntryRecord(t, off))
    ensures at + ENTRY_BYTES <= |buf| && EntryAt(buf, at) == EntryFor(t, off)
  {
    var numbers := Pack(EntryVals(t, off), EntryFields());
    EntryNumbers(t, off);
    EntryIndices(t, off);
    HeldSlice(buf, at, FullName(t.name), numbers);
    assert EntryVals(t, off)[2..6] == Shape4(t.shape);
    hide Pack, Unpack, EntryFields, Fits, EntryVals;
  }

  /** The full-width name reads back, also from behind "lNNN.". */
  lemma NameReads(t: Tensor)
    requires t.Valid() && NulFree(t.name)
    ensures UpToNul(FullName(t.name)) == t.name
    ensures |t.name| >= 5 ==> UpToNul(FullName(t.name)[5..]) == t.name[5..]
  {
    UpToNulPadded(t.name, NAME_BYTES - |t.name|);
    if |t.name| >= 5 {
      UpToNulPadded(t.name[5..], NAME_BYTES - |t.name|);
      assert FullName(t.name)[5..] == t.name[5..] + Zeros(NAME_BYTES - |t.name|);
    }
  }

  /** The layer the walk takes a canonical name for. */
  lemma LayerReads(t: Tensor)
    requires t.Valid() && NulFree(t.name) && Canonical(t.name)
    ensures LayerOf(FullName(t.name)) == if LayerForm(t.name) then Number(t.name) else -1
  {
    var f := FullName(t.name);
    if |t.name| >= 5 {
      assert forall i :: 0 <= i < 5 ==> f[i] == t.name[i];
    } else {
      assert f[4] == 0;
    }
  }

  predicate Fitting(t: Tensor, w: Want) {
    t.dtype == w.dtype
    && if w.cols != 0 then t.shape == [w.rows, w.cols] else w.rows != 0 ==> t.shape == [w.rows]
  }

  lemma FittingMatches(t: Tensor, off: nat, w: Want)
    requires t.Valid()
    ensures Matches(EntryFor(t, off), w) <==> Fitting(t, w)
  {
    var e := EntryFor(t, off);
    assert forall i :: 0 <= i < |t.shape| ==> e.shape[i] == t.shape[i];
  }

  // ------------------------------------------------------------------ the slots

  /** Where the first of the first `n` tensors called `name` is, else 0. */
  function FindFirst(ts: seq<Tensor>, n: nat, name: Bytes): nat
    requires n <= |ts|
  {
    if n == 0 then 0
    else
      var was := FindFirst(ts, n - 1, name);
      if was == 0 && ts[n - 1].name == name then PayloadAt(ts, n - 1) else was
  }

  /** Where the last one is. */
  function FindLast(ts: seq<Tensor>, n: nat, name: Bytes): nat
    requires n <= |ts|
  {
    if n == 0 then 0 else if ts[n - 1].name == name then PayloadAt(ts, n - 1) else FindLast(ts, n - 1, name)
  }

  lemma {:induction false} Finds(ts: seq<Tensor>, n: nat, name: Bytes)
    requires n <= |ts|
    ensures FindFirst(ts, n, name) != 0 <==> exists i :: 0 <= i < n && ts[i].name == name
    ensures FindLast(ts, n, name) != 0 <==> exists i :: 0 <= i < n && ts[i].name == name
  {
    if n > 0 {
      Finds(ts, n - 1, name);
      PayloadsDisjoint(ts, n - 1, n - 1);
      hide PayloadAt;
      if ts[n - 1].name == name {
        assert 0 <= n - 1 < n;
      }
    }
  }

  /** With distinct names, first or last, it is the tensor of that name. */
  lemma {:induction false} FindsThe(ts: seq<Tensor>, n: nat, i: nat)
    requires i < n <= |ts| && forall a, b :: 0 <= a < b < |ts| ==> ts[a].name != ts[b].name
    ensures FindFirst(ts, n, ts[i].name) == FindLast(ts, n, ts[i].name) == PayloadAt(ts, i)
  {
    Finds(ts, n - 1, ts[i].name);
    PayloadsDisjoint(ts, i, i);
    hide PayloadAt;
    if i < n - 1 {
      FindsThe(ts, n - 1, i);
    }
  }

  /** After `n` entries every global holds what was first called that. */
  ghost predicate GlobalsBound(ts: seq<Tensor>, n: nat, globals: seq<nat>, found: seq<bool>)
    requires n <= |ts|
  {
    |globals| == |found| == GLOBALS
    && forall k :: 0 <= k < GLOBALS ==> globals[k] == FindFirst(ts, n, GlobalName(k)) && (found[k] <==> globals[k] != 0)
  }

  /** A tensor a file can hold, whose name has digits where a layer name has them. */
  predicate Nameable(t: Tensor) {
    t.Valid() && NulFree(t.name) && Canonical(t.name)
  }

  /** A tensor the loader knows by name has the dtype and shape it expects. */
  ghost predicate TypedTensor(h: Header, t: Tensor)
    requires Sound(h)
  {
    Nameable(t)
    && (forall k :: 0 <= k < GLOBALS && t.name == GlobalName(k) ==> Fitting(t, GlobalWant(h, k)))
    && (forall l, j :: 0 <= l < h.nLayers && l < 1000 && 0 <= j < SUFFIXES && t.name == LayerName(l, j) ==> Fitting(t, LayerWant(h, j)))
  }

  function PutGlobal(s: Slots, k: nat, off: nat, bytes: nat): Slots
    requires |s.globals| == |s.found| == GLOBALS
  {
    if k >= GLOBALS then s
    else s.(globals := s.globals[k := off], found := s.found[k := true], blobBytes := if k == 5 then bytes % U32 else s.blobBytes)
  }

  lemma MatchResult(h: Header, s: Slots, t: Tensor, off: nat)
    requires Sound(h) && s.For(h) && TypedTensor(h, t)
    ensures MatchStep(h, s, EntryFor(t, off)) == (OK, PutGlobal(s, FirstGlobal(s.found, t.name, 0), off, |t.payload|))
  {
    hide GlobalName, GlobalWant, Fitting, UpToNul, FirstGlobal, Matches, NulFree, FullName;
    NameReads(t);
    FirstGlobalSpec(s.found, t.name, 0);
    var k := FirstGlobal(s.found, t.name, 0);
    if k < GLOBALS {
      FittingMatches(t, off, GlobalWant(h, k));
    }
  }

  lemma FindNext(ts: seq<Tensor>, n: nat, name: Bytes)
    requires n < |ts|
    ensures FindFirst(ts, n + 1, name)
         == if FindFirst(ts, n, name) == 0 && ts[n].name == name then PayloadAt(ts, n) else FindFirst(ts, n, name)
    ensures FindLast(ts, n + 1, name) == if ts[n].name == name then PayloadAt(ts, n) else FindLast(ts, n, name)
    ensures PayloadAt(ts, n) > 0
  {
    PayloadsDisjoint(ts, n, n);
    hide PayloadAt;
  }

  lemma GlobalSlotNext(ts: seq<Tensor>, n: nat, s: Slots, i: nat)
    requires n < |ts| && GlobalsBound(ts, n, s.globals, s.found) && i < GLOBALS
    ensures var k := FirstGlobal(s.found, ts[n].name, 0);
      var r := PutGlobal(s, k, PayloadAt(ts, n), |ts[n].payload|);
      r.globals[i] == FindFirst(ts, n + 1, GlobalName(i)) && (r.found[i] <==> r.globals[i] != 0)
  {
    hide GlobalName, PayloadAt, FirstGlobal, FindFirst;
    var k := FirstGlobal(s.found, ts[n].name, 0);
    FirstGlobalSpec(s.found, ts[n].name, 0);
    FindNext(ts, n, GlobalName(i));
    if k < GLOBALS {
      GlobalNamesDiffer(k, i);
    }
  }

  lemma MatchBinds(h: Header, ts: seq<Tensor>, n: nat, s: Slots)
    requires Sound(h) && n < |ts| && s.For(h) && GlobalsBound(ts, n, s.globals, s.found) && TypedTensor(h, ts[n])
    ensures ts[n].Valid()
    ensures var r := MatchStep(h, s, EntryFor(ts[n], PayloadAt(ts, n)));
      r.0 == OK && GlobalsBound(ts, n + 1, r.1.globals, r.1.found) && r.1.layers == s.layers
  {
    hide GlobalName, GlobalWant, PayloadAt, Fitting, FirstGlobal, MatchStep, FindFirst, EntryFor, NulFree, Sound;
    MatchResult(h, s, ts[n], PayloadAt(ts, n));
    var r := PutGlobal(s, FirstGlobal(s.found, ts[n].name, 0), PayloadAt(ts, n), |ts[n].payload|);
    assert r.layers == s.layers && |r.globals| == |r.found| == GLOBALS;
    hide PutGlobal;
    forall i | 0 <= i < GLOBALS
      ensures r.globals[i] == FindFirst(ts, n + 1, GlobalName(i)) && (r.found[i] <==> r.globals[i] != 0)
    {
      GlobalSlotNext(ts, n, s, i);
    }
  }

  ghost predicate LayersBound(h: Header, ts: seq<Tensor>, n: nat, layers: seq<seq<nat>>)
    requires n <= |ts|
  {
    |layers| == h.nLayers && (forall l :: 0 <= l < |layers| ==> |layers[l]| == SUFFIXES)
    && forall l, j :: 0 <= l < h.nLayers && 0 <= j < SUFFIXES ==> layers[l][j] == LayerSlot(ts, n, l, j)
  }

  /** What layer slot (l, j) holds after `n` entries: nothing from layer 1000 on. */
  function LayerSlot(ts: seq<Tensor>, n: nat, l: nat, j: nat): nat
    requires n <= |ts| && j < SUFFIXES
  {
    if l < 1000 then FindLast(ts, n, LayerName(l, j)) else 0
  }

  function PutLayer(s: Slots, l: int, j: nat, off: nat): Slots
    requires forall i :: 0 <= i < |s.layers| ==> |s.layers[i]| == SUFFIXES
  {
    if l < 0 || l >= |s.layers| || j >= SUFFIXES then s
    else
      var row: seq<nat> := s.layers[l][j := off];
      s.(layers := s.layers[l := row])
  }

  /** The layer and suffix a tensor's name stands for; out of range if none. */
  function LayerIx(name: Bytes): int
    requires Canonical(name)
  {
    if LayerForm(name) then Number(name) else -1
  }

  function SuffixIx(name: Bytes): nat {
    if |name| >= 5 then SuffixOf(name[5..], 0) else SUFFIXES
  }

  lemma LayerResult(h: Header, s: Slots, t: Tensor, off: nat)
    requires Sound(h) && s.For(h) && TypedTensor(h, t)
    ensures LayerStep(h, s, EntryFor(t, off)) == (OK, PutLayer(s, LayerIx(t.name), SuffixIx(t.name), off))
  {
    hide LayerName, LayerWant, Fitting, UpToNul, SuffixOf, Matches, NulFree, FullName, LayerOf, Number;
    NameReads(t);
    LayerReads(t);
    var l := LayerIx(t.name);
    if l >= 0 {
      SuffixSpec(t.name[5..], 0);
      var j := SuffixIx(t.name);
      if l < h.nLayers && j < SUFFIXES {
        LayerNameParses(t.name, l, j);
        FittingMatches(t, off, LayerWant(h, j));
      }
    }
  }

  lemma LayerSlotNext(h: Header, ts: seq<Tensor>, n: nat, s: Slots, l: nat, j: nat)
    requires n < |ts| && s.For(h) && LayersBound(h, ts, n, s.layers) && Canonical(ts[n].name) && l < h.nLayers && j < SUFFIXES
    ensures var r := PutLayer(s, LayerIx(ts[n].name), SuffixIx(ts[n].name), PayloadAt(ts, n));
      |r.layers| == h.nLayers && |r.layers[l]| == SUFFIXES && r.layers[l][j] == LayerSlot(ts, n + 1, l, j)
  {
    hide LayerName, PayloadAt, SuffixOf, FindLast, Number, Canonical, SuffixName;
    var name := ts[n].name;
    assert s.layers[l][j] == LayerSlot(ts, n, l, j);
    if LayerForm(name) {
      SuffixSpec(name[5..], 0);
      if SuffixIx(name) < SUFFIXES {
        SuffixNamesDiffer(SuffixIx(name), j);
      }
    }
    if l < 1000 {
      FindNext(ts, n, LayerName(l, j));
      LayerNameParses(name, l, j);
    }
  }

  lemma LayerBinds(h: Header, ts: seq<Tensor>, n: nat, s: Slots)
    requires Sound(h) && n < |ts| && s.For(h) && LayersBound(h, ts, n, s.layers)
    requires TypedTensor(h, ts[n])
    ensures ts[n].Valid()
    ensures var r := LayerStep(h, s, EntryFor(ts[n], PayloadAt(ts, n)));
      r.0 == OK && LayersBound(h, ts, n + 1, r.1.layers) && r.1.globals == s.globals && r.1.found == s.found
  {
    hide LayerName, LayerWant, PayloadAt, Fitting, LayerStep, LayerSlot, EntryFor, NulFree, Sound, Canonical, LayerIx, SuffixIx;
    LayerResult(h, s, ts[n], PayloadAt(ts, n));
    var r := PutLayer(s, LayerIx(ts[n].name), SuffixIx(ts[n].name), PayloadAt(ts, n));
    assert r.globals == s.globals && r.found == s.found;
    hide PutLayer;
    forall l, j | 0 <= l < h.nLayers && 0 <= j < SUFFIXES
      ensures r.layers[l][j] == LayerSlot(ts, n + 1, l, j)
    {
      LayerSlotNext(h, ts, n, s, l, j);
    }
  }

  // -------------------------------------------------------------------- the walk

  /** Every tensor the loader knows by name has the dtype and shape it expects, and layer names are canonical. */
  ghost predicate WellTyped(h: Header, ts: seq<Tensor>)
    requires Sound(h)
  {
    forall i :: 0 <= i < |ts| ==> TypedTensor(h, ts[i])
  }

  /** The header of a written file. */
  predicate HeaderFor(h: Header, ts: seq<Tensor>) {
    h.table == HEADER_BYTES && h.count == |ts| && h.fileBytes == PayloadAt(ts, |ts|) < U64
  }

  lemma AllTyped(h: Header, ts: seq<Tensor>)
    requires Sound(h)
    ensures WellTyped(h, ts) <==> forall i :: 0 <= i < |ts| ==> TypedTensor(h, ts[i])
  {
  }

  lemma EntryInside(h: Header, ts: seq<Tensor>, n: nat)
    requires HeaderFor(h, ts) && n < |ts|
    ensures (PayloadAt(ts, n) + |ts[n].payload|) % U64 <= h.fileBytes && PayloadAt(ts, n) % ALIGN == 0
  {
    hide PayloadAt;
    PayloadsDisjoint(ts, n, |ts|);
    PayloadsDisjoint(ts, n, n);
    SmallMod(PayloadAt(ts, n) + |ts[n].payload|, U64);
  }

  lemma SmallMod(x: nat, m: nat)
    requires x < m
    ensures x % m == x
  {
  }

  lemma EntryBinds(h: Header, ts: seq<Tensor>, n: nat, s: Slots)
    requires Sound(h) && HeaderFor(h, ts) && n < |ts| && TypedTensor(h, ts[n])
    requires s.For(h) && GlobalsBound(ts, n, s.globals, s.found) && LayersBound(h, ts, n, s.layers)
    ensures ts[n].Valid()
    ensures var r := EntryStep(h, s, EntryFor(ts[n], PayloadAt(ts, n)));
      r.0 == OK && GlobalsBound(ts, n + 1, r.1.globals, r.1.found) && LayersBound(h, ts, n + 1, r.1.layers)
  {
    hide GlobalsBound, LayersBound, TypedTensor, PayloadAt, MatchStep, LayerStep, Sound, HeaderFor, Slots.For;
    EntryInside(h, ts, n);
    MatchBinds(h, ts, n, s);
    LayerBinds(h, ts, n, MatchStep(h, s, EntryFor(ts[n], PayloadAt(ts, n))).1);
  }

  lemma NothingBound(h: Header, ts: seq<Tensor>)
    requires Sound(h)
    ensures Empty(h).For(h) && GlobalsBound(ts, 0, Empty(h).globals, Empty(h).found) && LayersBound(h, ts, 0, Empty(h).layers)
  {
    hide GlobalName, LayerName;
  }

  /** The walk over a written directory binds every slot by name. */
  lemma {:induction false} WalkBinds(c: Config, h: Header, ts: seq<Tensor>, buf: Bytes, n: nat)
    requires Layout(c, ts, buf) && Sound(h) && HeaderFor(h, ts) && n <= |ts|
    requires forall i :: 0 <= i < n ==> TypedTensor(h, ts[i])
    ensures h.table + ENTRY_BYTES * n <= |buf|
    ensures var w := Walk(h, buf, n);
      w.0 == OK && GlobalsBound(ts, n, w.1.globals, w.1.found) && LayersBound(h, ts, n, w.1.layers)
  {
    hide Layout, EntryStep, EntryAt, TypedTensor, GlobalsBound, LayersBound, Sound, PayloadAt, Slots.For, Empty, EntryFor;
    LaidInside(c, ts, buf, n);
    if n == 0 {
      NothingBound(h, ts);
    } else {
      WalkBinds(c, h, ts, buf, n - 1);
      LaidReads(c, ts, buf, n - 1);
      EntryBinds(h, ts, n - 1, Walk(h, buf, n - 1).1);
    }
  }

  lemma LaidInside(c: Config, ts: seq<Tensor>, buf: Bytes, n: nat)
    requires Layout(c, ts, buf) && n <= |ts|
    ensures HEADER_BYTES + ENTRY_BYTES * n <= |buf| == PayloadAt(ts, |ts|)
  {
    PayloadsDisjoint(ts, 0, |ts|);
  }

  lemma LaidReads(c: Config, ts: seq<Tensor>, buf: Bytes, i: nat)
    requires Layout(c, ts, buf) && i < |ts|
    ensures ts[i].Valid() && HEADER_BYTES + ENTRY_BYTES * i + ENTRY_BYTES <= |buf|
    ensures EntryAt(buf, HEADER_BYTES + ENTRY_BYTES * i) == EntryFor(ts[i], PayloadAt(ts, i))
  {
    hide PayloadAt, EntryRecord, Holds, Fits, EntryVals, DirectoryIn, PayloadsIn, Packable, EntryAt, EntryFor;
    PackableMeans(c, ts);
    DirectoryAt(buf, ts, |ts|, i);
    PackableAt(c, ts, i);
    EntryReads(buf, HEADER_BYTES + ENTRY_BYTES * i, ts[i], PayloadAt(ts, i));
  }

  // ------------------------------------------------------------------ the theorem

  /** A configuration the loader can run. */
  predicate Runnable(c: Config) {
    c.dim > 0 && c.hidden > 0 && c.nLayers > 0 && c.nHeads > 0 && c.nKvHeads > 0 && c.vocab > 0 && c.seqLen > 0
    && c.dim % c.nHeads == 0 && c.nHeads % c.nKvHeads == 0 && c.dim % 32 == 0 && c.hidden % 32 == 0
    && (c.qtype == 1 || c.qtype == 2)
  }

  function HeaderFrom(c: Config, ts: seq<Tensor>): Header {
    Header(MAGIC, VERSION, HEADER_BYTES, 0, |ts|, HEADER_BYTES, PayloadAt(ts, |ts|),
           c.dim, c.hidden, c.nLayers, c.nHeads, c.nKvHeads, c.vocab, c.seqLen, c.qtype, GROUP_SIZE, c.shared)
  }

  lemma HeaderReads(c: Config, ts: seq<Tensor>, buf: Bytes)
    requires Layout(c, ts, buf)
    ensures |buf| >= HEADER_BYTES && HeaderOf(buf) == HeaderFrom(c, ts)
  {
    HeaderNumbers(c, ts, buf);
    LaidInside(c, ts, buf, 0);
    LaidPackable(c, ts, buf);
    assert SignedDims(c);
    hide Unpack, Layout, HeaderFields, PayloadAt, DataAt, TopVals, ConfigVals, Packable;
    var h := HeaderVals(c, |ts|, DataAt(|ts|), |buf|);
    var t := TopVals(|ts|, DataAt(|ts|));
    TopMeans(|ts|, DataAt(|ts|));
    assert h[9..] == ConfigVals(c);
    assert forall i :: 0 <= i < 8 ==> h[i] == t[i];
    ConfigNumbers(c);
  }

  lemma ConfigNumbers(c: Config)
    ensures var k := ConfigVals(c);
      && k[0] == c.dim && k[1] == c.hidden && k[2] == c.nLayers && k[3] == c.nHeads && k[4] == c.nKvHeads
      && k[5] == c.vocab && k[6] == c.seqLen && k[7] == c.qtype && k[8] == GROUP_SIZE && k[9] == c.shared
  {
  }

  lemma TotalFits(c: Config, ts: seq<Tensor>)
    requires Packable(c, ts)
    ensures PayloadAt(ts, |ts|) < U64
  {
    var v := HeaderVals(c, |ts|, DataAt(|ts|), PayloadAt(ts, |ts|));
    assert v[8] < Range(HeaderFields()[8]);
    assert v[8] == PayloadAt(ts, |ts|) && HeaderFields()[8] == 8;
    Ranges();
    hide PayloadAt, HeaderVals, HeaderFields, Packable;
  }

  /** Every required tensor is there, and every layer has a three-digit number. */
  ghost predicate Complete(h: Header, ts: seq<Tensor>)
    requires Sound(h)
  {
    h.nLayers <= 1000
    && (forall k :: 0 <= k < GLOBALS && GlobalWant(h, k).required ==> Named(ts, GlobalName(k)))
    && (forall l, j :: 0 <= l < h.nLayers && 0 <= j < SUFFIXES ==> Named(ts, LayerName(l, j)))
  }

  ghost predicate Named(ts: seq<Tensor>, name: Bytes) {
    exists i :: 0 <= i < |ts| && ts[i].name == name
  }

  /** Everything bound by name, the output head to the embedding when they are shared. */
  ghost predicate BoundByName(h: Header, ts: seq<Tensor>, s: Slots) {
    |s.globals| == GLOBALS && |s.layers| == h.nLayers && (forall l :: 0 <= l < |s.layers| ==> |s.layers[l]| == SUFFIXES)
    && (forall k :: 0 <= k < GLOBALS ==>
          s.globals[k] == FindFirst(ts, |ts|, GlobalName(if k == 2 && h.shared != 0 then 0 else k)))
    && forall l, j :: 0 <= l < h.nLayers && 0 <= j < SUFFIXES ==> s.layers[l][j] == FindLast(ts, |ts|, LayerName(l, j)) != 0
  }

  lemma FinishGlobals(h: Header, ts: seq<Tensor>, s: Slots)
    requires Sound(h) && s.For(h) && GlobalsBound(ts, |ts|, s.globals, s.found)
    ensures (exists k :: 0 <= k < GLOBALS && GlobalWant(h, k).required && !s.found[k])
       <==> !(forall k :: 0 <= k < GLOBALS && GlobalWant(h, k).required ==> Named(ts, GlobalName(k)))
  {
    hide GlobalName, GlobalWant;
    forall k | 0 <= k < GLOBALS
      ensures s.found[k] <==> Named(ts, GlobalName(k))
    {
      Finds(ts, |ts|, GlobalName(k));
    }
  }

  lemma FinishLayers(h: Header, ts: seq<Tensor>, s: Slots)
    requires Sound(h) && s.For(h) && LayersBound(h, ts, |ts|, s.layers)
    ensures AllBound(s) <==>
      h.nLayers <= 1000 && forall l, j :: 0 <= l < h.nLayers && 0 <= j < SUFFIXES ==> Named(ts, LayerName(l, j))
  {
    hide LayerName;
    if h.nLayers > 1000 {
      assert s.layers[1000][0] == LayerSlot(ts, |ts|, 1000, 0) == 0;
    } else {
      forall l, j | 0 <= l < h.nLayers && 0 <= j < SUFFIXES
        ensures s.layers[l][j] != 0 <==> Named(ts, LayerName(l, j))
      {
        assert s.layers[l][j] == LayerSlot(ts, |ts|, l, j);
        Finds(ts, |ts|, LayerName(l, j));
      }
    }
  }

  lemma HeaderPasses(c: Config, ts: seq<Tensor>)
    requires Packable(c, ts) && Runnable(c)
    ensures var h := HeaderFrom(c, ts);
      Sound(h) && HeaderFor(h, ts) && HeaderRc(h, PayloadAt(ts, |ts|)) == OK
  {
    hide PayloadAt, Packable;
    TotalFits(c, ts);
  }

  lemma FinishBinds(h: Header, ts: seq<Tensor>, s: Slots)
    requires Sound(h) && s.For(h) && GlobalsBound(ts, |ts|, s.globals, s.found) && LayersBound(h, ts, |ts|, s.layers)
    ensures Finish(h, s).0 == OK <==> Complete(h, ts)
    ensures Finish(h, s).0 == OK ==> BoundByName(h, ts, Finish(h, s).1)
  {
    FinishGlobals(h, ts, s);
    var t := if h.shared != 0 then s.(globals := s.globals[2 := s.globals[0]]) else s;
    FinishLayers(h, ts, t);
    if AllBound(t) {
      SlotsByName(h, ts, s, t);
    }
    hide GlobalName, LayerName, GlobalWant, Named, GlobalsBound, LayersBound, AllBound, BoundByName;
  }

  lemma SlotsByName(h: Header, ts: seq<Tensor>, s: Slots, t: Slots)
    requires Sound(h) && s.For(h) && GlobalsBound(ts, |ts|, s.globals, s.found) && LayersBound(h, ts, |ts|, s.layers)
    requires t == if h.shared != 0 then s.(globals := s.globals[2 := s.globals[0]]) else s
    requires AllBound(t) && h.nLayers <= 1000
    ensures BoundByName(h, ts, t)
  {
    hide GlobalName, LayerName, FindFirst, FindLast;
    forall l, j | 0 <= l < h.nLayers && 0 <= j < SUFFIXES
      ensures t.layers[l][j] == FindLast(ts, |ts|, LayerName(l, j)) != 0
    {
      assert s.layers[l][j] == LayerSlot(ts, |ts|, l, j);
      assert t.layers[l][j] != 0;
    }
  }

  /**
    A written file of well-typed tensors opens exactly when they are complete,
    and then every slot is where the tensor of its name lies.
   */
  lemma WrittenFileOpens(c: Config, ts: seq<Tensor>, buf: Bytes, base: nat, cap: nat)
    requires Layout(c, ts, buf) && Runnable(c) && Sound(HeaderFrom(c, ts)) && WellTyped(HeaderFrom(c, ts), ts)
    requires Arena.Spot(base, 0) + LAYER_OFFSETS * c.nLayers <= cap
    ensures Open(buf, base, cap).Opened? <==> Complete(HeaderFrom(c, ts), ts)
    ensures Open(buf, base, cap).Opened? ==> Open(buf, base, cap).h == HeaderFrom(c, ts)
    ensures Open(buf, base, cap).Opened? ==> BoundByName(HeaderFrom(c, ts), ts, Open(buf, base, cap).s)
    ensures !Open(buf, base, cap).Opened? ==> Open(buf, base, cap).rc == ERR_MISSING
  {
    hide Layout, Runnable, HeaderOf, HeaderRc, Walk, Finish, PayloadAt, WellTyped, Complete, BoundByName, GlobalsBound, LayersBound, Slots.For, Sound;
    var h := HeaderFrom(c, ts);
    HeaderReads(c, ts, buf);
    LaidInside(c, ts, buf, |ts|);
    LaidPackable(c, ts, buf);
    HeaderPasses(c, ts);
    AllTyped(h, ts);
    WalkBinds(c, h, ts, buf, |ts|);
    FinishBinds(h, ts, Walk(h, buf, |ts|).1);
    FinishStatus(h, Walk(h, buf, |ts|).1);
  }

  lemma LaidPackable(c: Config, ts: seq<Tensor>, buf: Bytes)
    requires Layout(c, ts, buf)
    ensures Packable(c, ts)
  {
    hide Packable;
  }

  lemma FinishStatus(h: Header, s: Slots)
    requires Sound(h) && s.For(h)
    ensures Finish(h, s).0 == OK || Finish(h, s).0 == ERR_MISSING
  {
  }

  // ---------------------------------------------------- a tensor out of shape

  /** The names a writer used: each once, with digits where a layer name has them. */
  ghost predicate DistinctNames(ts: seq<Tensor>) {
    (forall i :: 0 <= i < |ts| ==> Nameable(ts[i])) && forall a, b :: 0 <= a < b < |ts| ==> ts[a].name != ts[b].name
  }

  lemma GlobalNotFound(ts: seq<Tensor>, n: nat, s: Slots, k: nat)
    requires DistinctNames(ts) && n < |ts| && k < GLOBALS && ts[n].name == GlobalName(k)
    requires GlobalsBound(ts, n, s.globals, s.found)
    ensures |s.found| == GLOBALS && !s.found[k]
  {
    hide GlobalName;
    Finds(ts, n, GlobalName(k));
  }

  lemma GlobalRefused(h: Header, ts: seq<Tensor>, n: nat, s: Slots, k: nat)
    requires Sound(h) && DistinctNames(ts) && n < |ts| && k < GLOBALS && ts[n].name == GlobalName(k)
    requires !Fitting(ts[n], GlobalWant(h, k)) && s.For(h) && GlobalsBound(ts, n, s.globals, s.found)
    ensures ts[n].Valid() && MatchStep(h, s, EntryFor(ts[n], PayloadAt(ts, n))).0 == ERR_SHAPE != OK
  {
    var t := ts[n];
    hide GlobalName, GlobalWant, Fitting, UpToNul, FirstGlobal, Matches, NulFree, FullName, Canonical, PayloadAt, GlobalsBound, Sound;
    GlobalNotFound(ts, n, s, k);
    NameReads(t);
    FirstGlobalIs(s.found, t.name, k, 0);
    FittingMatches(t, PayloadAt(ts, n), GlobalWant(h, k));
  }

  lemma NoGlobalCalled(h: Header, s: Slots, t: Tensor, off: nat)
    requires Sound(h) && s.For(h) && t.Valid() && NulFree(t.name) && LayerForm(t.name)
    ensures MatchStep(h, s, EntryFor(t, off)) == (OK, s)
  {
    hide GlobalName, GlobalWant, UpToNul, FirstGlobal, Matches, NulFree, FullName, Sound;
    NameReads(t);
    FirstGlobalSpec(s.found, t.name, 0);
    var k := FirstGlobal(s.found, t.name, 0);
    if k < GLOBALS {
      GlobalNamesDiffer(k, k);
    }
  }

  lemma LayerRefused(h: Header, s: Slots, t: Tensor, off: nat, l: nat, j: nat)
    requires Sound(h) && s.For(h) && Nameable(t) && l < h.nLayers && l < 1000 && j < SUFFIXES
    requires t.name == LayerName(l, j) && !Fitting(t, LayerWant(h, j))
    ensures LayerForm(t.name) && LayerStep(h, s, EntryFor(t, off)).0 == ERR_SHAPE
  {
    hide LayerName, LayerWant, Fitting, UpToNul, SuffixOf, Matches, NulFree, FullName, LayerOf, Number, SuffixName, Sound;
    LayerNameParses(t.name, l, j);
    NameReads(t);
    LayerReads(t);
    SuffixSpec(t.name[5..], 0);
    SuffixIs(t.name[5..], j);
    FittingMatches(t, off, LayerWant(h, j));
  }

  lemma SuffixIs(s: Bytes, j: nat)
    requires j < SUFFIXES && s == SuffixName(j)
    ensures SuffixOf(s, 0) == j
  {
    hide SuffixName, SuffixOf;
    SuffixSpec(s, 0);
    if SuffixOf(s, 0) < SUFFIXES {
      SuffixNamesDiffer(SuffixOf(s, 0), j);
    }
  }

  /** What an ill-typed tensor is: a global, or the tensor of a layer. */
  lemma WhichIsWrong(h: Header, t: Tensor) returns (k: nat, l: nat, j: nat)
    requires Sound(h) && Nameable(t) && !TypedTensor(h, t)
    ensures k <= GLOBALS && j < SUFFIXES
    ensures k < GLOBALS ==> t.name == GlobalName(k) && !Fitting(t, GlobalWant(h, k))
    ensures k == GLOBALS ==> l < h.nLayers && l < 1000 && t.name == LayerName(l, j) && !Fitting(t, LayerWant(h, j))
  {
    hide Fitting, GlobalName, LayerName, GlobalWant, LayerWant, NulFree, Canonical, Sound;
    l, j := 0, 0;
    if i :| 0 <= i < GLOBALS && t.name == GlobalName(i) && !Fitting(t, GlobalWant(h, i)) {
      k := i;
    } else {
      k := GLOBALS;
      l, j :| 0 <= l < h.nLayers && l < 1000 && 0 <= j < SUFFIXES && t.name == LayerName(l, j) && !Fitting(t, LayerWant(h, j));
    }
  }

  /** A tensor the loader knows, of another dtype or shape, stops the walk. */
  lemma EntryRefused(h: Header, ts: seq<Tensor>, n: nat, s: Slots)
    requires Sound(h) && HeaderFor(h, ts) && n < |ts| && DistinctNames(ts) && !TypedTensor(h, ts[n])
    requires s.For(h) && GlobalsBound(ts, n, s.globals, s.found)
    ensures ts[n].Valid() && EntryStep(h, s, EntryFor(ts[n], PayloadAt(ts, n))).0 == ERR_SHAPE
  {
    hide *;
    var t, off := ts[n], PayloadAt(ts, n);
    NameableAt(ts, n);
    EntryInside(h, ts, n);
    EntryIs(t, off);
    StepFrom(h, s, EntryFor(t, off));
    var k, l, j := WhichIsWrong(h, t);
    if k < GLOBALS {
      GlobalRefused(h, ts, n, s, k);
    } else {
      LayerRefused(h, s, t, off, l, j);
      NoGlobalCalled(h, s, t, off);
    }
  }

  lemma NameableAt(ts: seq<Tensor>, n: nat)
    requires DistinctNames(ts) && n < |ts|
    ensures Nameable(ts[n]) && ts[n].Valid() && NulFree(ts[n].name)
  {
    hide Canonical;
  }

  lemma StepFrom(h: Header, s: Slots, e: Entry)
    requires Sound(h) && s.For(h) && |e.shape| == 4 && |e.name| == NAME_BYTES
    requires (e.offset + e.nbytes) % U64 <= h.fileBytes && e.offset % ALIGN == 0
    ensures MatchStep(h, s, e).0 != OK ==> EntryStep(h, s, e) == MatchStep(h, s, e)
    ensures MatchStep(h, s, e) == (OK, s) ==> EntryStep(h, s, e) == LayerStep(h, s, e)
  {
    hide MatchStep, LayerStep, Sound, Slots.For;
  }

  lemma EntryIs(t: Tensor, off: nat)
    requires t.Valid()
    ensures EntryFor(t, off).offset == off && EntryFor(t, off).nbytes == |t.payload|
  {
  }

  lemma {:induction false} WalkRefuses(c: Config, h: Header, ts: seq<Tensor>, buf: Bytes, n: nat)
    requires Layout(c, ts, buf) && Sound(h) && HeaderFor(h, ts) && DistinctNames(ts) && n <= |ts|
    requires exists i :: 0 <= i < n && !TypedTensor(h, ts[i])
    ensures h.table + ENTRY_BYTES * n <= |buf| && Walk(h, buf, n).0 == ERR_SHAPE
  {
    hide Layout, EntryStep, EntryAt, TypedTensor, GlobalsBound, LayersBound, Sound, PayloadAt, Slots.For, EntryFor, DistinctNames;
    LaidInside(c, ts, buf, n);
    if exists i :: 0 <= i < n - 1 && !TypedTensor(h, ts[i]) {
      WalkRefuses(c, h, ts, buf, n - 1);
    } else {
      WalkBinds(c, h, ts, buf, n - 1);
      LaidReads(c, ts, buf, n - 1);
      EntryRefused(h, ts, n - 1, Walk(h, buf, n - 1).1);
    }
  }

  /** A written file with a tensor out of shape is refused for that. */
  lemma MistypedFileRefused(c: Config, ts: seq<Tensor>, buf: Bytes, base: nat, cap: nat)
    requires Layout(c, ts, buf) && Runnable(c) && Sound(HeaderFrom(c, ts)) && !WellTyped(HeaderFrom(c, ts), ts) && DistinctNames(ts)
    requires Arena.Spot(base, 0) + LAYER_OFFSETS * c.nLayers <= cap
    ensures Open(buf, base, cap) == Refused(ERR_SHAPE)
  {
    hide Layout, Runnable, HeaderOf, HeaderRc, Walk, Finish, PayloadAt, WellTyped, DistinctNames, TypedTensor, Slots.For, Sound;
    var h := HeaderFrom(c, ts);
    HeaderReads(c, ts, buf);
    LaidInside(c, ts, buf, |ts|);
    LaidPackable(c, ts, buf);
    HeaderPasses(c, ts);
    AllTyped(h, ts);
    WalkRefuses(c, h, ts, buf, |ts|);
  }

  lemma HeaderFails(c: Config, ts: seq<Tensor>)
    requires !Runnable(c)
    ensures HeaderRc(HeaderFrom(c, ts), PayloadAt(ts, |ts|)) != OK
  {
    hide PayloadAt;
  }

  /** A configuration the loader cannot run is refused by the header checks. */
  lemma UnrunnableFileRefused(c: Config, ts: seq<Tensor>, buf: Bytes, base: nat, cap: nat)
    requires Layout(c, ts, buf) && !Runnable(c)
    ensures Open(buf, base, cap) == Refused(HeaderRc(HeaderFrom(c, ts), |buf|)) && HeaderRc(HeaderFrom(c, ts), |buf|) != OK
  {
    hide Runnable, HeaderOf, HeaderRc, Walk, Finish, PayloadAt;
    HeaderReads(c, ts, buf);
    LaidInside(c, ts, buf, 0);
    HeaderFails(c, ts);
    hide Layout;
  }
}
