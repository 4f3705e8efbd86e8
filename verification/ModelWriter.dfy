/**
  write_model and add_tokenizer of tools/etq/convert.py: the tensors it emits,
  by its own names, dtypes and shapes, and what the loader makes of the file.
 */
module ModelWriter {
  import opened Words
  import opened EtqFormat
  import opened ModelOpen
  import opened ModelBinding
  import Arena
  import TokenTensors

  // ------------------------------------------------------------ what goes in

  /** An ndarray: its shape and its bytes as float32. */
  datatype Array = Array(shape: seq<nat>, f32: Bytes)

  datatype Tokens = Tokens(pieces: seq<Bytes>, scores: Bytes)

  /** `blocks` is what the quantiser makes of float32 bytes in a block dtype. */
  datatype Model = Model(weights: map<Bytes, Array>, tokens: Option<Tokens>, blocks: (Bytes, nat) -> Bytes)

  const PARTS: seq<string> := ["rms_att", "rms_ffn", "wq", "wk", "wv", "wo", "w1", "w2", "w3"]

  type PartIx = j: nat | j < 9

  /** One call of emit, emit_f32 or add. */
  datatype Item = Emb | Final | Cls | Part(l: nat, j: PartIx) | Scores | Offs | Blob | Sorted

  // ------------------------------------------------------ what is made of it

  /** str(l). */
  function Digits(l: nat): (r: Bytes)
    ensures |r| >= 1
  {
    (if l < 10 then [] else Digits(l / 10)) + [48 + l % 10]
  }

  /** f"{l:03d}". */
  function Padded(l: nat): Bytes {
    var d := Digits(l);
    seq(if |d| < 3 then 3 - |d| else 0, _ => 48) + d
  }

  function NameOf(item: Item): Bytes {
    match item
    case Emb => Ascii("tok_emb")
    case Final => Ascii("rms_final")
    case Cls => Ascii("cls")
    case Part(l, j) => Ascii("l") + Padded(l) + Ascii(".") + Ascii(PARTS[j])
    case Scores => Ascii("tok.scores")
    case Offs => Ascii("tok.offs")
    case Blob => Ascii("tok.blob")
    case Sorted => Ascii("tok.sorted")
  }

  function KeyOf(item: Item): Bytes {
    if item.Part? then Ascii("l") + Digits(item.l) + Ascii(".") + Ascii(PARTS[item.j]) else NameOf(item)
  }

  /** emit_f32, not emit. */
  predicate Float(item: Item) {
    item.Final? || (item.Part? && (PARTS[item.j] == "rms_att" || PARTS[item.j] == "rms_ffn"))
  }

  predicate Token(item: Item) {
    item.Scores? || item.Offs? || item.Blob? || item.Sorted?
  }

  /** add_tokenizer's tensors. */
  function TokenTensor(t: Tokens, item: Item): Tensor
    requires Token(item)
  {
    var n := |t.pieces|;
    if item.Scores? then Tensor(NameOf(item), DT_F32, [n], t.scores)
    else if item.Offs? then Tensor(NameOf(item), DT_U32, [n + 1], TokenTensors.WordBytes(TokenTensors.Offsets(t.pieces)))
    else if item.Blob? then Tensor(NameOf(item), DT_U8, [|TokenTensors.Blob(t.pieces)|], TokenTensors.Blob(t.pieces))
    else Tensor(NameOf(item), DT_U32, [n], TokenTensors.WordBytes(TokenTensors.SortIds(t.pieces, n)))
  }

  /** The tensor of an item, or an exception: a missing key, broken blocks, no block dtype. */
  function Make(c: Config, m: Model, item: Item): Result<Tensor> {
    if Token(item) then if m.tokens.None? then Err("tokens") else Ok(TokenTensor(m.tokens.value, item))
    else if KeyOf(item) !in m.weights then Err("key")
    else
      var a := m.weights[KeyOf(item)];
      if Float(item) then Ok(Tensor(NameOf(item), DT_F32, a.shape, a.f32))
      else if Product(a.shape) % GROUP_SIZE != 0 then Err("blocks")
      else if c.qtype != DT_Q8_0 && c.qtype != DT_Q4_0 then Err("dtype")
      else Ok(Tensor(NameOf(item), c.qtype, a.shape, m.blocks(a.f32, c.qtype)))
  }

  /** The tensor can be made, and the writer takes it. */
  predicate Emittable(c: Config, m: Model, item: Item) {
    var t := Make(c, m, item);
    t.Ok? && Addable(t.value)
  }

  function Head(c: Config): seq<Item> {
    [Emb, Final] + if c.shared == 0 then [Cls] else []
  }

  function Layers(n: nat): (r: seq<Item>)
    ensures |r| == 9 * n && forall i :: 0 <= i < 9 * n ==> r[i] == Part(i / 9, i % 9)
  {
    seq(9 * n, i requires 0 <= i < 9 * n => Part(i / 9, i % 9))
  }

  function Tail(m: Model): seq<Item> {
    if m.tokens.Some? then [Scores, Offs, Blob, Sorted] else []
  }

  /** Embedding, final norm, the output head unless shared, the layers, the tokenizer if there is one. */
  function Items(c: Config, m: Model): seq<Item> {
    Head(c) + Layers(c.nLayers) + Tail(m)
  }

  predicate AllEmittable(c: Config, m: Model, items: seq<Item>) {
    forall i :: 0 <= i < |items| ==> Emittable(c, m, items[i])
  }

  function Tensors(c: Config, m: Model, items: seq<Item>): (r: seq<Tensor>)
    requires AllEmittable(c, m, items)
    ensures |r| == |items|
  {
    seq(|items|, i requires 0 <= i < |items| => Make(c, m, items[i]).value)
  }

  function Written(c: Config, m: Model): seq<Tensor>
    requires AllEmittable(c, m, Items(c, m))
  {
    Tensors(c, m, Items(c, m))
  }

  // ------------------------------------------------------- the shapes that fit

  /** Config.kv_dim. */
  function ConfigKvDim(c: Config): nat
    requires c.nHeads > 0
  {
    c.dim / c.nHeads * c.nKvHeads
  }

  /** The shapes of load_llama2c: a matrix is output by input. */
  function PartShape(c: Config, j: PartIx): seq<nat>
    requires c.nHeads > 0
  {
    if PARTS[j] == "rms_att" || PARTS[j] == "rms_ffn" then [c.dim]
    else if PARTS[j] == "wk" || PARTS[j] == "wv" then [ConfigKvDim(c), c.dim]
    else if PARTS[j] == "w1" || PARTS[j] == "w3" then [c.hidden, c.dim]
    else if PARTS[j] == "w2" then [c.dim, c.hidden]
    else [c.dim, c.dim]
  }

  /** The weights of an item have the configuration's shape; the tokenizer has a piece for every token. */
  predicate RightShape(c: Config, m: Model, item: Item)
    requires c.nHeads > 0 && Emittable(c, m, item)
  {
    if Token(item) then item.Blob? || |m.tokens.value.pieces| == c.vocab
    else
      m.weights[KeyOf(item)].shape ==
        if item.Part? then PartShape(c, item.j) else if item.Final? then [c.dim] else [c.vocab, c.dim]
  }

  /** All that the loader looks at: layers past the thousandth it does not recognise. */
  predicate RightShapes(c: Config, m: Model)
    requires c.nHeads > 0 && AllEmittable(c, m, Items(c, m))
  {
    forall i :: 0 <= i < |Items(c, m)| ==>
      var item := Items(c, m)[i];
      (item.Part? ==> item.l < 1000) ==> RightShape(c, m, item)
  }

  // ------------------------------------------------- the loader's names for it

  lemma {:induction false} PaddedIsDecimal(l: nat)
    ensures Padded(l) == Decimal(l)
    decreases l
  {
    if l >= 1000 {
      PaddedIsDecimal(l / 10);
      assert Padded(l / 10) == Digits(l / 10) by {
        DigitsLong(l / 10);
      }
    } else if l >= 100 {
      assert Digits(l / 10) == Digits(l / 100) + [48 + l / 10 % 10];
      assert Digits(l / 100) == [48 + l / 100];
    } else if l >= 10 {
      assert Digits(l / 10) == [48 + l / 10];
    }
  }

  lemma {:induction false} DigitsLong(l: nat)
    requires l >= 100
    ensures |Digits(l)| >= 3
  {
    if l >= 1000 {
      DigitsLong(l / 10);
    } else {
      assert |Digits(l / 10)| == |Digits(l / 100)| + 1;
    }
  }

  function GlobalIx(item: Item): (k: nat)
    requires !item.Part?
    ensures k < GLOBALS
  {
    match item
    case Emb => 0
    case Final => 1
    case Cls => 2
    case Scores => 3
    case Offs => 4
    case Blob => 5
    case Sorted => 6
  }

  /** The exporter's spelling of a name is the loader's. */
  lemma NamesAgree(item: Item)
    ensures !item.Part? ==> NameOf(item) == GlobalName(GlobalIx(item))
    ensures item.Part? ==> NameOf(item) == LayerName(item.l, item.j)
  {
    if item.Part? {
      PaddedIsDecimal(item.l);
      assert Ascii("l") == [108] && Ascii(".") == [46];
      assert Ascii(PARTS[item.j]) == SuffixName(item.j);
      hide Ascii, SuffixName, Decimal, Padded;
    }
  }

  lemma {:induction false} DecimalDiffer(a: nat, b: nat)
    requires Decimal(a) == Decimal(b)
    ensures a == b
  {
    if a >= 1000 && b >= 1000 {
      var d, e := Decimal(a), Decimal(b);
      assert d[..|d| - 1] == Decimal(a / 10) && e[..|e| - 1] == Decimal(b / 10);
      assert d[|d| - 1] == e[|e| - 1];
      DecimalDiffer(a / 10, b / 10);
    } else if a >= 1000 {
      DecimalLong(a);
    } else if b >= 1000 {
      DecimalLong(b);
    } else {
      DecimalDigits(a);
      DecimalDigits(b);
    }
  }

  lemma {:induction false} DecimalHasNoDot(l: nat)
    ensures 46 !in Decimal(l) && 0 !in Decimal(l) && forall i :: 0 <= i < |Decimal(l)| ==> Decimal(l)[i] < 128
  {
    if l >= 1000 {
      DecimalHasNoDot(l / 10);
    }
  }

  /** Cut at the first dot. */
  lemma SplitAtDot(a: Bytes, s: Bytes, b: Bytes, t: Bytes)
    requires 46 !in a && 46 !in b && a + [46] + s == b + [46] + t
    ensures a == b && s == t
  {
    var x := a + [46] + s;
    assert x[|a|] == 46 && x[|b|] == 46;
    assert forall i :: 0 <= i < |a| ==> x[i] == a[i];
    assert forall i :: 0 <= i < |b| ==> x[i] == b[i];
    assert |a| == |b|;
    assert a == x[..|a|] && b == x[..|b|] && s == x[|a| + 1..] && t == x[|b| + 1..];
  }

  lemma LayerNamesDiffer(l: nat, j: nat, l': nat, j': nat)
    requires j < SUFFIXES && j' < SUFFIXES && LayerName(l, j) == LayerName(l', j')
    ensures l == l' && j == j'
  {
    hide SuffixName, Decimal;
    DecimalHasNoDot(l);
    DecimalHasNoDot(l');
    var a, b := Decimal(l) + [46] + SuffixName(j), Decimal(l') + [46] + SuffixName(j');
    assert LayerName(l, j)[1..] == a && LayerName(l', j')[1..] == b;
    SplitAtDot(Decimal(l), SuffixName(j), Decimal(l'), SuffixName(j'));
    DecimalDiffer(l, l');
    SuffixNamesDiffer(j, j');
  }

  lemma LayerNotGlobal(l: nat, j: nat, k: nat)
    requires j < SUFFIXES && k < GLOBALS
    ensures LayerName(l, j) != GlobalName(k)
  {
    GlobalNamesDiffer(k, k);
    assert LayerName(l, j)[0] == 108;
  }

  /** No two items are called the same. */
  lemma NamesDiffer(a: Item, b: Item)
    requires a != b
    ensures NameOf(a) != NameOf(b)
  {
    hide NameOf, LayerName, GlobalName;
    NamesAgree(a);
    NamesAgree(b);
    if a.Part? && b.Part? {
      if LayerName(a.l, a.j) == LayerName(b.l, b.j) {
        LayerNamesDiffer(a.l, a.j, b.l, b.j);
      }
    } else if a.Part? {
      LayerNotGlobal(a.l, a.j, GlobalIx(b));
    } else if b.Part? {
      LayerNotGlobal(b.l, b.j, GlobalIx(a));
    } else {
      GlobalNamesDiffer(GlobalIx(a), GlobalIx(b));
      GlobalIxDiffers(a, b);
    }
  }

  lemma GlobalIxDiffers(a: Item, b: Item)
    requires !a.Part? && !b.Part? && a != b
    ensures GlobalIx(a) != GlobalIx(b)
  {
  }

  // ------------------------------------------------------------ no name twice

  ghost predicate Distinct(items: seq<Item>) {
    forall a, b :: 0 <= a < b < |items| ==> items[a] != items[b]
  }

  lemma DistinctConcat(a: seq<Item>, b: seq<Item>)
    requires Distinct(a) && Distinct(b) && forall i, j :: 0 <= i < |a| && 0 <= j < |b| ==> a[i] != b[j]
    ensures Distinct(a + b)
  {
  }

  lemma LayersDistinct(n: nat)
    ensures Distinct(Layers(n))
  {
    forall a, b | 0 <= a < b < 9 * n
      ensures Layers(n)[a] != Layers(n)[b]
    {
    }
  }

  lemma ItemsDistinct(c: Config, m: Model)
    ensures Distinct(Items(c, m))
  {
    LayersDistinct(c.nLayers);
    DistinctConcat(Head(c), Layers(c.nLayers));
    DistinctConcat(Head(c) + Layers(c.nLayers), Tail(m));
  }

  lemma MadeIs(c: Config, m: Model, item: Item)
    requires Emittable(c, m, item)
    ensures var t := Make(c, m, item).value; t.Valid() && t.name == NameOf(item)
  {
    hide NameOf, KeyOf, DtypeBytes;
  }

  lemma NameFits(item: Item)
    ensures NulFree(NameOf(item)) && Canonical(NameOf(item))
  {
    hide NameOf, GlobalName, SuffixName, Decimal;
    NamesAgree(item);
    if item.Part? {
      DecimalHasNoDot(item.l);
      NamesNulFree(0, item.j);
      LayerNameCanonical(item.l, item.j);
    } else {
      NamesNulFree(GlobalIx(item), 0);
      GlobalNamesDiffer(GlobalIx(item), 0);
    }
  }

  lemma LayerNameCanonical(l: nat, j: nat)
    requires j < SUFFIXES
    ensures Canonical(LayerName(l, j))
  {
    if l < 1000 {
      DecimalDigits(l);
      hide SuffixName, Decimal;
      var name := LayerName(l, j);
      assert name[1] == Decimal(l)[0] && name[2] == Decimal(l)[1] && name[3] == Decimal(l)[2];
    } else {
      LongLayerName(l, j);
    }
  }

  /** The directory of an exported model: no name twice, digits where the loader looks for them. */
  lemma WrittenDistinct(c: Config, m: Model)
    requires AllEmittable(c, m, Items(c, m))
    ensures DistinctNames(Written(c, m))
  {
    var items, ts := Items(c, m), Written(c, m);
    ItemsDistinct(c, m);
    hide Items, Make, NameOf, NulFree, Canonical, Tensor.Valid;
    forall i | 0 <= i < |ts|
      ensures Nameable(ts[i]) && ts[i].name == NameOf(items[i])
    {
      MadeAt(c, m, items, i);
      NameFits(items[i]);
    }
    forall a, b | 0 <= a < b < |ts|
      ensures ts[a].name != ts[b].name
    {
      NamesDiffer(items[a], items[b]);
    }
  }

  lemma MadeAt(c: Config, m: Model, items: seq<Item>, i: nat)
    requires AllEmittable(c, m, items) && i < |items|
    ensures Emittable(c, m, items[i])
    ensures var t := Tensors(c, m, items)[i]; t == Make(c, m, items[i]).value && t.Valid() && t.name == NameOf(items[i])
  {
    hide Make;
    MadeIs(c, m, items[i]);
  }

  // ------------------------------------------------- right shapes, well typed

  predicate SameDims(c: Config, h: Header) {
    h.dim == c.dim && h.hidden == c.hidden && h.nLayers == c.nLayers && h.nHeads == c.nHeads && h.nKvHeads == c.nKvHeads
    && h.vocab == c.vocab && h.seqLen == c.seqLen && h.qtype == c.qtype && h.shared == c.shared
  }

  /** The exporter's dtype is what the loader wants, and so is its shape exactly if it is the configuration's. */
  lemma GlobalFits(c: Config, m: Model, h: Header, item: Item)
    requires Sound(h) && SameDims(c, h) && !item.Part? && Emittable(c, m, item)
    ensures Fitting(Make(c, m, item).value, GlobalWant(h, GlobalIx(item))) <==> RightShape(c, m, item)
  {
    hide NameOf, DtypeBytes;
  }

  lemma PartFits(c: Config, m: Model, h: Header, item: Item)
    requires Sound(h) && SameDims(c, h) && item.Part? && Emittable(c, m, item)
    ensures Fitting(Make(c, m, item).value, LayerWant(h, item.j)) <==> RightShape(c, m, item)
  {
    hide NameOf, KeyOf, DtypeBytes, Product;
  }

  lemma GlobalTyped(c: Config, m: Model, h: Header, item: Item)
    requires Sound(h) && SameDims(c, h) && Emittable(c, m, item) && !item.Part?
    ensures TypedTensor(h, Make(c, m, item).value) <==> RightShape(c, m, item)
  {
    hide NameOf, Make, GlobalName, LayerName, GlobalWant, LayerWant, Fitting, RightShape, NulFree, Canonical, Sound, SameDims;
    NamesAgree(item);
    MadeIs(c, m, item);
    NameFits(item);
    GlobalFits(c, m, h, item);
    var t := Make(c, m, item).value;
    forall k | 0 <= k < GLOBALS && t.name == GlobalName(k)
      ensures k == GlobalIx(item)
    {
      GlobalNamesDiffer(k, GlobalIx(item));
    }
    forall l, j | 0 <= l && 0 <= j < SUFFIXES
      ensures t.name != LayerName(l, j)
    {
      LayerNotGlobal(l, j, GlobalIx(item));
    }
  }

  lemma PartTyped(c: Config, m: Model, h: Header, item: Item)
    requires Sound(h) && SameDims(c, h) && Emittable(c, m, item) && item.Part? && item.l < h.nLayers
    ensures TypedTensor(h, Make(c, m, item).value) <==> (item.l < 1000 ==> RightShape(c, m, item))
  {
    hide NameOf, Make, GlobalName, LayerName, GlobalWant, LayerWant, Fitting, RightShape, NulFree, Canonical, Sound, SameDims;
    NamesAgree(item);
    MadeIs(c, m, item);
    NameFits(item);
    PartFits(c, m, h, item);
    var t := Make(c, m, item).value;
    forall k | 0 <= k < GLOBALS
      ensures t.name != GlobalName(k)
    {
      LayerNotGlobal(item.l, item.j, k);
    }
    forall l, j | 0 <= l && 0 <= j < SUFFIXES && t.name == LayerName(l, j)
      ensures l == item.l && j == item.j
    {
      LayerNamesDiffer(l, j, item.l, item.j);
    }
  }

  lemma PartsAreLayers(c: Config, m: Model, i: nat)
    requires i < |Items(c, m)| && Items(c, m)[i].Part?
    ensures Items(c, m)[i].l < c.nLayers
  {
    var k := |Head(c)|;
    assert Items(c, m)[i] == Layers(c.nLayers)[i - k];
  }

  /** The loader finds nothing wrong in an exported file exactly when the weights have the configuration's shapes. */
  lemma WrittenTyped(c: Config, m: Model, h: Header)
    requires Sound(h) && SameDims(c, h) && AllEmittable(c, m, Items(c, m))
    ensures WellTyped(h, Written(c, m)) <==> RightShapes(c, m)
  {
    assert c.nHeads > 0;
    hide TypedTensor, Make, RightShape, Items, Sound;
    var items, ts := Items(c, m), Written(c, m);
    forall i | 0 <= i < |ts|
      ensures TypedTensor(h, ts[i]) <==> ((items[i].Part? ==> items[i].l < 1000) ==> RightShape(c, m, items[i]))
    {
      if items[i].Part? {
        PartsAreLayers(c, m, i);
        PartTyped(c, m, h, items[i]);
      } else {
        GlobalTyped(c, m, h, items[i]);
      }
    }
  }

  // ------------------------------------------------------------- completeness

  lemma ItemNamed(c: Config, m: Model, i: nat)
    requires AllEmittable(c, m, Items(c, m)) && i < |Items(c, m)|
    ensures Named(Written(c, m), NameOf(Items(c, m)[i]))
  {
    hide Make, NameOf;
    MadeAt(c, m, Items(c, m), i);
  }

  lemma ItemAt(c: Config, m: Model, item: Item) returns (i: nat)
    requires match item
      case Cls => c.shared == 0
      case Part(l, _) => l < c.nLayers
      case Scores => m.tokens.Some?
      case Offs => m.tokens.Some?
      case Blob => m.tokens.Some?
      case Sorted => m.tokens.Some?
      case _ => true
    ensures i < |Items(c, m)| && Items(c, m)[i] == item
  {
    var head, n := |Head(c)|, 9 * c.nLayers;
    match item
    case Emb => i := 0;
    case Final => i := 1;
    case Cls => i := 2;
    case Part(l, j) =>
      i := head + (9 * l + j);
      assert (9 * l + j) / 9 == l && (9 * l + j) % 9 == j;
      assert Items(c, m)[i] == Layers(c.nLayers)[9 * l + j];
    case Scores => i := head + n;
    case Offs => i := head + n + 1;
    case Blob => i := head + n + 2;
    case Sorted => i := head + n + 3;
  }

  /** Nothing is missing from what the exporter writes, up to 1000 layers. */
  lemma WrittenComplete(c: Config, m: Model, h: Header)
    requires Sound(h) && SameDims(c, h) && AllEmittable(c, m, Items(c, m))
    ensures Complete(h, Written(c, m)) <==> c.nLayers <= 1000
  {
    forall k | 0 <= k < GLOBALS && GlobalWant(h, k).required
      ensures Named(Written(c, m), GlobalName(k))
    {
      var item := if k == 0 then Emb else if k == 1 then Final else Cls;
      assert GlobalIx(item) == k;
      NamesAgree(item);
      var i := ItemAt(c, m, item);
      ItemNamed(c, m, i);
    }
    forall l, j | 0 <= l < h.nLayers && 0 <= j < SUFFIXES
      ensures Named(Written(c, m), LayerName(l, j))
    {
      NamesAgree(Part(l, j));
      var i := ItemAt(c, m, Part(l, j));
      ItemNamed(c, m, i);
    }
    hide Items, Written, GlobalName, LayerName, AllEmittable, Named;
  }

  /**
    What write_model wrote, tq_model_open accepts exactly when the weights have
    the configuration's shapes and there are at most 1000 layers, and binds every
    slot to the tensor of its name; otherwise it reports the shape, or else a
    missing tensor.
   */
  lemma WrittenModelOpens(c: Config, m: Model, buf: Bytes, base: nat, cap: nat)
    requires Runnable(c) && AllEmittable(c, m, Items(c, m)) && Layout(c, Written(c, m), buf)
    requires Arena.Spot(base, 0) + LAYER_OFFSETS * c.nLayers <= cap
    ensures Open(buf, base, cap).Opened? <==> RightShapes(c, m) && c.nLayers <= 1000
    ensures Open(buf, base, cap).Opened? ==> Open(buf, base, cap).h == HeaderFrom(c, Written(c, m))
    ensures Open(buf, base, cap).Opened? ==>
              BoundByName(HeaderFrom(c, Written(c, m)), Written(c, m), Open(buf, base, cap).s)
    ensures !Open(buf, base, cap).Opened? ==>
              Open(buf, base, cap).rc == if RightShapes(c, m) then ERR_MISSING else ERR_SHAPE
  {
    var ts := Written(c, m);
    var h := HeaderFrom(c, ts);
    assert Sound(h) && SameDims(c, h);
    hide Layout, Open, Written, WellTyped, BoundByName, Complete, RightShapes, Runnable, AllEmittable, DistinctNames;
    WrittenTyped(c, m, h);
    WrittenComplete(c, m, h);
    if RightShapes(c, m) {
      WrittenFileOpens(c, ts, buf, base, cap);
    } else {
      WrittenDistinct(c, m);
      MistypedFileRefused(c, ts, buf, base, cap);
    }
  }

  /** The shapes load_llama2c cuts out of a checkpoint. */
  function LlamaShape(c: Config, item: Item): seq<nat>
    requires c.nHeads > 0 && !Token(item)
  {
    var headSize := c.dim / c.nHeads;
    match item
    case Final => [c.dim]
    case Part(_, j) =>
      if PARTS[j] == "rms_att" || PARTS[j] == "rms_ffn" then [c.dim]
      else if PARTS[j] == "wq" then [c.nHeads * headSize, c.dim]
      else if PARTS[j] == "wk" || PARTS[j] == "wv" then [c.nKvHeads * headSize, c.dim]
      else if PARTS[j] == "wo" then [c.dim, c.nHeads * headSize]
      else if PARTS[j] == "w2" then [c.dim, c.hidden]
      else [c.hidden, c.dim]
    case _ => [c.vocab, c.dim]
  }

  lemma LlamaShapeRight(c: Config, m: Model, item: Item)
    requires Runnable(c) && Emittable(c, m, item) && !Token(item) && m.weights[KeyOf(item)].shape == LlamaShape(c, item)
    ensures RightShape(c, m, item)
  {
    assert c.nHeads * (c.dim / c.nHeads) == c.dim;
    assert c.nKvHeads * (c.dim / c.nHeads) == ConfigKvDim(c);
    hide KeyOf, NameOf, Emittable;
  }

  /** So a checkpoint read by load_llama2c, with a tokenizer of its vocabulary's size or none, always has the right shapes. */
  lemma LlamaShapesRight(c: Config, m: Model)
    requires Runnable(c) && AllEmittable(c, m, Items(c, m))
    requires forall i :: 0 <= i < |Items(c, m)| ==>
      var item := Items(c, m)[i];
      if Token(item) then |m.tokens.value.pieces| == c.vocab else m.weights[KeyOf(item)].shape == LlamaShape(c, item)
    ensures RightShapes(c, m)
  {
    hide Items, KeyOf, NameOf, Make, LlamaShape;
    forall i | 0 <= i < |Items(c, m)|
      ensures RightShape(c, m, Items(c, m)[i])
    {
      if !Token(Items(c, m)[i]) {
        LlamaShapeRight(c, m, Items(c, m)[i]);
      }
    }
  }

  // ------------------------------------------------------------ the tokenizer

  /** tq_tokenizer_init, on a store that is mapped or not. */
  function TokenizerInit(mapped: bool, s: Slots, bufBytes: nat): int32
    requires |s.globals| == GLOBALS
  {
    if !mapped then ERR_UNSUPPORTED
    else if s.globals[3] == 0 || s.globals[4] == 0 || s.globals[5] == 0 || s.globals[6] == 0 then ERR_MISSING
    else if bufBytes < 64 then ERR_NOMEM
    else OK
  }

  function PlacesOf(s: Slots): TokenTensors.Places
    requires |s.globals| == GLOBALS
  {
    TokenTensors.Places(s.globals[3], s.globals[4], s.globals[5], s.globals[6])
  }

  lemma TokenAt(c: Config, m: Model, item: Item) returns (i: nat)
    requires AllEmittable(c, m, Items(c, m)) && Token(item) && m.tokens.Some?
    ensures var ts := Written(c, m);
      i < |ts| && ts[i] == TokenTensor(m.tokens.value, item) && ts[i].name == GlobalName(GlobalIx(item)) && Addable(ts[i])
  {
    i := ItemAt(c, m, item);
    NamesAgree(item);
    MadeAt(c, m, Items(c, m), i);
    hide Items, TokenTensor, GlobalName, NameOf, AllEmittable, Addable;
  }

  /** With distinct names the slot of a global is where the tensor of that name lies. */
  lemma SlotIs(c: Config, ts: seq<Tensor>, buf: Bytes, s: Slots, i: nat, k: nat)
    requires Layout(c, ts, buf) && BoundByName(HeaderFrom(c, ts), ts, s) && DistinctNames(ts)
    requires i < |ts| && k < GLOBALS && k != 2 && ts[i].name == GlobalName(k)
    ensures s.globals[k] == PayloadAt(ts, i) != 0 && Holds(buf, s.globals[k], ts[i].payload)
  {
    hide Packable, DirectoryIn, Holds, GlobalName, PayloadAt, Nameable;
    PayloadsDisjoint(ts, i, i);
    FindsThe(ts, |ts|, i);
    PayloadsAt(buf, ts, |ts|, i);
  }

  /** The slot of a tokenizer's tensor is where its payload lies; its numbers fit. */
  ghost predicate Placed(buf: Bytes, s: Slots, t: Tokens, item: Item)
    requires Token(item)
  {
    && |s.globals| == GLOBALS && s.globals[GlobalIx(item)] != 0
    && Holds(buf, s.globals[GlobalIx(item)], TokenTensor(t, item).payload)
    && Addable(TokenTensor(t, item)) && Fits(TokenTensor(t, item).shape, [4])
  }

  lemma SlotHolds(c: Config, m: Model, buf: Bytes, s: Slots, item: Item)
    requires AllEmittable(c, m, Items(c, m)) && Layout(c, Written(c, m), buf)
    requires BoundByName(HeaderFrom(c, Written(c, m)), Written(c, m), s)
    requires Token(item) && m.tokens.Some?
    ensures Placed(buf, s, m.tokens.value, item)
  {
    TokenShape(m.tokens.value, item);
    BoundHasGlobals(HeaderFrom(c, Written(c, m)), Written(c, m), s);
    hide *;
    var ts := Written(c, m);
    LaidPackable(c, ts, buf);
    var i := TokenAt(c, m, item);
    WrittenDistinct(c, m);
    SlotIs(c, ts, buf, s, i, GlobalIx(item));
    ShapeFits(c, ts, i);
    PlacedFrom(buf, s, m.tokens.value, item);
  }

  lemma TokenShape(t: Tokens, item: Item)
    requires Token(item)
    ensures |TokenTensor(t, item).shape| == 1 && 3 <= GlobalIx(item) < GLOBALS
  {
  }

  lemma PlacedFrom(buf: Bytes, s: Slots, t: Tokens, item: Item)
    requires Token(item) && |s.globals| == GLOBALS && s.globals[GlobalIx(item)] != 0
    requires Holds(buf, s.globals[GlobalIx(item)], TokenTensor(t, item).payload)
    requires Addable(TokenTensor(t, item)) && Fits(TokenTensor(t, item).shape, [4])
    ensures Placed(buf, s, t, item)
  {
    hide Holds, Addable, Fits, TokenTensor;
  }

  lemma ShapeFits(c: Config, ts: seq<Tensor>, i: nat)
    requires Packable(c, ts) && i < |ts| && |ts[i].shape| == 1
    ensures Fits(ts[i].shape, [4])
  {
    PackableAt(c, ts, i);
    var e := EntryVals(ts[i], PayloadAt(ts, i));
    EntryIndices(ts[i], PayloadAt(ts, i));
    assert e[2] == ts[i].shape[0] && EntryFields()[2] == 4;
    hide Packable, PayloadAt, EntryVals, EntryFields;
  }

  lemma NoSlot(c: Config, m: Model, item: Item)
    requires AllEmittable(c, m, Items(c, m)) && Token(item) && m.tokens.None?
    ensures FindFirst(Written(c, m), |Written(c, m)|, GlobalName(GlobalIx(item))) == 0
  {
    var ts, items := Written(c, m), Items(c, m);
    NamesAgree(item);
    hide Make, NameOf, GlobalName, FindFirst;
    forall i | 0 <= i < |ts|
      ensures ts[i].name != NameOf(item)
    {
      MadeAt(c, m, items, i);
      NamesDiffer(items[i], item);
    }
    Finds(ts, |ts|, NameOf(item));
  }

  lemma TokenNumbers(buf: Bytes, s: Slots, t: Tokens)
    requires Placed(buf, s, t, Scores) && Placed(buf, s, t, Blob)
    ensures |t.scores| == 4 * |t.pieces| && |t.pieces| < U32 && |TokenTensors.Blob(t.pieces)| < U32
  {
    hide NameOf, TokenTensors.Blob, Range, Holds;
    Ranges();
    assert [|t.pieces|][..0] == [];
    assert Product([]) == 1 && Product([|t.pieces|]) == |t.pieces|;
  }

  lemma PayloadsOfTokens(t: Tokens)
    ensures TokenTensor(t, Scores).payload == t.scores
    ensures TokenTensor(t, Offs).payload == TokenTensors.WordBytes(TokenTensors.Offsets(t.pieces))
    ensures TokenTensor(t, Blob).payload == TokenTensors.Blob(t.pieces)
    ensures TokenTensor(t, Sorted).payload == TokenTensors.WordBytes(TokenTensors.SortIds(t.pieces, |t.pieces|))
  {
    hide NameOf, TokenTensors.Blob, TokenTensors.WordBytes, TokenTensors.Offsets, TokenTensors.SortIds;
  }

  lemma CarriesFrom(buf: Bytes, s: Slots, t: Tokens)
    requires Placed(buf, s, t, Scores) && Placed(buf, s, t, Offs) && Placed(buf, s, t, Blob) && Placed(buf, s, t, Sorted)
    requires |t.scores| == 4 * |t.pieces|
    ensures TokenizerInit(true, s, 64) == OK && TokenTensors.Carries(buf, PlacesOf(s), t.pieces, t.scores)
  {
    PayloadsOfTokens(t);
    hide TokenTensor, Holds, Addable, Fits, TokenTensors.Blob, TokenTensors.WordBytes, TokenTensors.Offsets, TokenTensors.SortIds;
  }

  lemma BoundHasGlobals(h: Header, ts: seq<Tensor>, s: Slots)
    requires BoundByName(h, ts, s)
    ensures |s.globals| == GLOBALS
  {
    hide GlobalName, LayerName;
  }

  lemma CarriesTokens(c: Config, m: Model, buf: Bytes, s: Slots)
    requires AllEmittable(c, m, Items(c, m)) && Layout(c, Written(c, m), buf)
    requires BoundByName(HeaderFrom(c, Written(c, m)), Written(c, m), s) && m.tokens.Some?
    ensures TokenizerInit(true, s, 64) == OK
    ensures var t := m.tokens.value;
      TokenTensors.Carries(buf, PlacesOf(s), t.pieces, t.scores) && |t.pieces| < U32 && |TokenTensors.Blob(t.pieces)| < U32
  {
    BoundHasGlobals(HeaderFrom(c, Written(c, m)), Written(c, m), s);
    hide *;
    SlotHolds(c, m, buf, s, Scores);
    SlotHolds(c, m, buf, s, Offs);
    SlotHolds(c, m, buf, s, Blob);
    SlotHolds(c, m, buf, s, Sorted);
    TokenNumbers(buf, s, m.tokens.value);
    CarriesFrom(buf, s, m.tokens.value);
  }

  lemma MissingTokens(c: Config, m: Model, s: Slots)
    requires AllEmittable(c, m, Items(c, m)) && m.tokens.None?
    requires BoundByName(HeaderFrom(c, Written(c, m)), Written(c, m), s)
    ensures TokenizerInit(true, s, 64) == ERR_MISSING
  {
    hide Items, Written, AllEmittable, GlobalName, FindFirst;
    NoSlot(c, m, Scores);
  }

  /** The model in the file has a tokenizer, and it is this one. */
  ghost predicate Speaks(buf: Bytes, s: Slots, c: Config, t: Tokens, float: nat -> real) {
    && |s.globals| == GLOBALS && PlacesOf(s).Inside(buf, c.vocab)
    && TokenTensors.Spells(TokenTensors.VocabAt(buf, PlacesOf(s), c.vocab, c.bos, c.eos, float), t.pieces)
  }

  lemma SpeaksTokens(c: Config, m: Model, buf: Bytes, s: Slots, float: nat -> real)
    requires AllEmittable(c, m, Items(c, m)) && Layout(c, Written(c, m), buf)
    requires BoundByName(HeaderFrom(c, Written(c, m)), Written(c, m), s) && m.tokens.Some?
    requires |m.tokens.value.pieces| == c.vocab && c.bos < c.vocab
    ensures Speaks(buf, s, c, m.tokens.value, float)
  {
    var t := m.tokens.value;
    hide Items, Written, AllEmittable, Layout, TokenTensors.Carries, TokenTensors.Spells, TokenTensors.VocabAt, TokenTensors.Blob;
    CarriesTokens(c, m, buf, s);
    TokenTensors.VocabReads(buf, PlacesOf(s), t.pieces, t.scores, c.bos, c.eos, float);
  }

  /**
    The tokenizer of an exported and opened model: its vocabulary is the pieces
    that went in, sorted as the lookup relies on; without pieces it is missing.
   */
  lemma ExportedVocabulary(c: Config, m: Model, buf: Bytes, base: nat, cap: nat, float: nat -> real)
    requires Runnable(c) && AllEmittable(c, m, Items(c, m)) && Layout(c, Written(c, m), buf)
    requires Arena.Spot(base, 0) + LAYER_OFFSETS * c.nLayers <= cap
    requires RightShapes(c, m) && c.nLayers <= 1000
    ensures var o := Open(buf, base, cap);
      o.Opened? && TokenizerInit(true, o.s, 64) == if m.tokens.Some? then OK else ERR_MISSING
    ensures m.tokens.Some? && c.bos < c.vocab ==> Speaks(buf, Open(buf, base, cap).s, c, m.tokens.value, float)
  {
    assert c.nHeads > 0;
    hide *;
    WrittenModelOpens(c, m, buf, base, cap);
    var s := Open(buf, base, cap).s;
    if m.tokens.Some? {
      CarriesTokens(c, m, buf, s);
      PieceForEveryToken(c, m);
      if c.bos < c.vocab {
        SpeaksTokens(c, m, buf, s, float);
      }
    } else {
      MissingTokens(c, m, s);
    }
  }

  lemma PieceForEveryToken(c: Config, m: Model)
    requires c.nHeads > 0 && AllEmittable(c, m, Items(c, m)) && RightShapes(c, m) && m.tokens.Some?
    ensures |m.tokens.value.pieces| == c.vocab
  {
    var i := ItemAt(c, m, Scores);
    hide Items, Make;
    assert RightShape(c, m, Items(c, m)[i]);
  }

  // ------------------------------------------------------------------ in the loop

  lemma EmittableMore(c: Config, m: Model, items: seq<Item>, n: nat)
    requires n < |items|
    ensures AllEmittable(c, m, items[..n + 1]) <==> AllEmittable(c, m, items[..n]) && Emittable(c, m, items[n])
    ensures AllEmittable(c, m, items) ==> Emittable(c, m, items[n])
    ensures AllEmittable(c, m, items[..n + 1]) ==>
      Tensors(c, m, items[..n + 1]) == Tensors(c, m, items[..n]) + [Make(c, m, items[n]).value]
  {
    hide Emittable, Make;
    assert items[..n + 1] == items[..n] + [items[n]];
    if AllEmittable(c, m, items[..n + 1]) {
      forall i | 0 <= i <= n
        ensures Emittable(c, m, items[i])
      {
        assert items[..n + 1][i] == items[i];
      }
    }
  }

  /** The items up to `n` are in the writer. */
  ghost predicate Emitted(w: Writer, m: Model, items: seq<Item>, n: nat)
    reads w
  {
    n <= |items| && AllEmittable(w.cfg, m, items[..n]) && w.tensors == Tensors(w.cfg, m, items[..n])
  }

  /** emit, emit_f32 and add: the next item. */
  method Emit(w: Writer, m: Model, item: Item, ghost items: seq<Item>, ghost n: nat) returns (ok: bool)
    requires Emitted(w, m, items, n) && n < |items| && items[n] == item
    modifies w
    ensures ok <==> Emittable(w.cfg, m, item)
    ensures ok ==> Emitted(w, m, items, n + 1)
  {
    hide Make, AllEmittable, Tensors, Addable;
    EmittableMore(w.cfg, m, items, n);
    var t := Make(w.cfg, m, item);
    if t.Err? {
      return false;
    }
    ok := w.Add(t.value.name, t.value.dtype, t.value.shape, t.value.payload);
  }

  lemma ItemsAre(c: Config, m: Model)
    ensures var items, h := Items(c, m), |Head(c)|;
      && |items| == h + 9 * c.nLayers + |Tail(m)|
      && items[0] == Emb && items[1] == Final && (c.shared == 0 ==> items[2] == Cls)
      && h == (if c.shared == 0 then 3 else 2)
      && (m.tokens.Some? ==> |Tail(m)| == 4 && forall i :: 0 <= i < 4 ==> items[h + 9 * c.nLayers + i] == Tail(m)[i])
  {
  }

  lemma LayerItem(c: Config, m: Model, l: nat, j: PartIx)
    requires l < c.nLayers
    ensures |Head(c)| + 9 * l + j < |Items(c, m)| && Items(c, m)[|Head(c)| + 9 * l + j] == Part(l, j)
  {
    assert (9 * l + j) / 9 == l && (9 * l + j) % 9 == j;
    assert Items(c, m)[|Head(c)| + (9 * l + j)] == Layers(c.nLayers)[9 * l + j];
  }

  lemma NotAll(c: Config, m: Model, items: seq<Item>, n: nat)
    requires n < |items| && !Emittable(c, m, items[n])
    ensures !AllEmittable(c, m, items)
  {
  }

  /** write_model: the file, if every tensor can be made and added and every number fits its field. */
  method WriteModel(c: Config, m: Model) returns (r: Result<Bytes>)
    ensures r.Ok? <==> AllEmittable(c, m, Items(c, m)) && Packable(c, Written(c, m))
    ensures r.Ok? ==> Layout(c, Written(c, m), r.value)
  {
    hide Emittable, AllEmittable, Tensors, Packable, Layout, Items;
    var w := new Writer(c);
    ghost var items, n := Items(c, m), 0;
    ItemsAre(c, m);
    NothingEmitted(c, m, items);
    var ok := Emit(w, m, Emb, items, n);
    if !ok {
      NotAll(c, m, items, n);
      return Err("tok_emb");
    }
    n := n + 1;
    ok := Emit(w, m, Final, items, n);
    if !ok {
      NotAll(c, m, items, n);
      return Err("rms_final");
    }
    n := n + 1;
    if c.shared == 0 {
      ok := Emit(w, m, Cls, items, n);
      if !ok {
        NotAll(c, m, items, n);
        return Err("cls");
      }
      n := n + 1;
    }
    for l := 0 to c.nLayers
      invariant n == |Head(c)| + 9 * l && Emitted(w, m, items, n)
    {
      ok := EmitLayer(w, m, l);
      if !ok {
        return Err("layer");
      }
      n := n + 9;
    }
    if m.tokens.Some? {
      ok := AddTokenizer(w, m);
      if !ok {
        return Err("tokenizer");
      }
      n := n + 4;
    }
    assert items[..n] == items;
    r := w.Write();
  }

  lemma NothingEmitted(c: Config, m: Model, items: seq<Item>)
    ensures AllEmittable(c, m, items[..0]) && Tensors(c, m, items[..0]) == []
  {
  }

  method EmitLayer(w: Writer, m: Model, l: nat) returns (ok: bool)
    requires l < w.cfg.nLayers && Emitted(w, m, Items(w.cfg, m), |Head(w.cfg)| + 9 * l)
    modifies w
    ensures ok ==> Emitted(w, m, Items(w.cfg, m), |Head(w.cfg)| + 9 * l + 9)
    ensures !ok ==> !AllEmittable(w.cfg, m, Items(w.cfg, m))
  {
    hide Emittable, Emitted, AllEmittable, Items;
    ghost var items := Items(w.cfg, m);
    for j := 0 to 9
      invariant Emitted(w, m, items, |Head(w.cfg)| + 9 * l + j)
    {
      LayerItem(w.cfg, m, l, j);
      ok := Emit(w, m, Part(l, j), items, |Head(w.cfg)| + 9 * l + j);
      if !ok {
        NotAll(w.cfg, m, items, |Head(w.cfg)| + 9 * l + j);
        return;
      }
    }
    return true;
  }

  method AddTokenizer(w: Writer, m: Model) returns (ok: bool)
    requires m.tokens.Some? && Emitted(w, m, Items(w.cfg, m), |Head(w.cfg)| + 9 * w.cfg.nLayers)
    modifies w
    ensures ok ==> Emitted(w, m, Items(w.cfg, m), |Items(w.cfg, m)|)
    ensures !ok ==> !AllEmittable(w.cfg, m, Items(w.cfg, m))
  {
    hide Emittable, Emitted, AllEmittable, Items;
    ghost var items, n := Items(w.cfg, m), |Head(w.cfg)| + 9 * w.cfg.nLayers;
    ItemsAre(w.cfg, m);
    var tail := Tail(m);
    for i := 0 to |tail|
      invariant Emitted(w, m, items, n + i)
    {
      ok := Emit(w, m, tail[i], items, n + i);
      if !ok {
        NotAll(w.cfg, m, items, n + i);
        return;
      }
    }
    return true;
  }
}
