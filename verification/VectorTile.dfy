/**
 The vector-tile decoder: values, geometry command streams, features, layers and
 the tile. What a tile decodes to is given by functions over the field lists that
 Wire reads; the decoder's loops are methods proved to return exactly that.
 UTF-8 decoding and gunzip are parameters.
 */
module VectorTile {
  import opened Prelude
  import opened Wire

  type Utf8 = seq<byte> -> Option<string>

  const DEFAULT_EXTENT: nat := 4096
  const GZIP_MAGIC: seq<byte> := [0x1f, 0x8b]

  /** A property value; floats keep their bits, Blob is a field 4 or 5 that was
      not a varint, which the decoder hands on unread. */
  datatype Value = Str(s: string) | Float(bits: seq<byte>) | Double(bits: seq<byte>)
                 | Int(i: int) | Blob(raw: seq<byte>) | Bool(v: bool) | Null

  datatype Pt = Pt(x: int, y: int)

  type Parts = seq<seq<Pt>>

  datatype Feature = Feature(props: map<string, Value>, gtype: Val, parts: Parts)

  datatype Layer = Layer(extent: Val, features: seq<Feature>)

  // ----- values -----

  function Zigzag(v: nat): int {
    if v % 2 == 0 then v / 2 else -(v / 2) - 1
  }

  /** What one known field of a Value message decodes to. */
  function ValueOf(utf8: Utf8, num: nat, val: Val): Option<Value> {
    match num
    case 1 => (
      if val.Num? then None
      else match utf8(val.b) case None => None case Some(s) => Some(Str(s)))
    case 2 => if val.Bytes? && |val.b| == 4 then Some(Float(val.b)) else None
    case 3 => if val.Bytes? && |val.b| == 8 then Some(Double(val.b)) else None
    case 4 => Some(if val.Num? then Int(val.n) else Blob(val.b))
    case 5 => Some(if val.Num? then Int(val.n) else Blob(val.b))
    case 6 => if val.Num? then Some(Int(Zigzag(val.n))) else None
    case 7 => Some(Bool(if val.Num? then val.n != 0 else val.b != []))
    case _ => Some(Null)
  }

  predicate KnownValueField(num: nat) { 1 <= num <= 7 }

  /** The first known field decides and nothing after it is read. */
  function ValueMessage(utf8: Utf8, buf: seq<byte>): Option<Value>
    decreases |buf|
  {
    if buf == [] then Some(Null)
    else
      match TakeField(buf)
      case None => None
      case Some((f, rest)) =>
        if KnownValueField(f.num) then ValueOf(utf8, f.num, f.val) else ValueMessage(utf8, rest)
  }

  method DecodeValue(utf8: Utf8, buf: seq<byte>) returns (r: Option<Value>)
    ensures r == ValueMessage(utf8, buf)
  {
    var pos := 0;
    while pos < |buf|
      invariant ValueMessage(utf8, Tail(buf, pos)) == ValueMessage(utf8, buf)
      decreases |buf| - pos
    {
      var key := ReadVarint(buf, pos);
      if key == None {
        return None;
      }
      var v := ReadPayload(key.value.0 % 8, buf, key.value.1);
      if v == None {
        return None;
      }
      var num := key.value.0 / 8;
      if KnownValueField(num) {
        return ValueOf(utf8, num, v.value.0);
      }
      pos := v.value.1;
    }
    assert Tail(buf, pos) == [];
    return Some(Null);
  }

  // ----- geometry -----

  datatype Pen = Pen(x: int, y: int, current: seq<Pt>, parts: Parts) {
    function Flush(): Parts {
      if current == [] then parts else parts + [current]
    }

    function LineTo(dx: nat, dy: nat): Pen {
      var x', y' := x + Zigzag(dx), y + Zigzag(dy);
      Pen(x', y', current + [Pt(x', y')], parts)
    }

    function MoveTo(dx: nat, dy: nat): Pen {
      this.(current := [], parts := Flush()).LineTo(dx, dy)
    }

    function ClosePath(): Pen {
      if current == [] then this else this.(current := current + [current[0]])
    }
  }

  /** `count` repetitions of one drawing command, and the stream after them. */
  function Draw(move: bool, count: nat, pen: Pen, cmds: seq<nat>): (r: Option<(Pen, seq<nat>)>)
    ensures r.Some? ==> |r.value.1| <= |cmds|
  {
    if count == 0 then Some((pen, cmds))
    else if |cmds| < 2 then None
    else
      var pen' := if move then pen.MoveTo(cmds[0], cmds[1]) else pen.LineTo(cmds[0], cmds[1]);
      Draw(move, count - 1, pen', cmds[2..])
  }

  function Geometry(pen: Pen, cmds: seq<nat>): Option<Parts>
    decreases |cmds|
  {
    if cmds == [] then Some(pen.Flush())
    else
      var op, count := cmds[0] % 8, cmds[0] / 8;
      if op == 1 || op == 2 then
        match Draw(op == 1, count, pen, cmds[1..])
        case None => None
        case Some((pen', rest)) => Geometry(pen', rest)
      else if op == 7 then Geometry(pen.ClosePath(), cmds[1..])
      else None
  }

  const FRESH_PEN := Pen(0, 0, [], [])

  method DecodeGeometry(cmds: seq<nat>) returns (r: Option<Parts>)
    ensures r == Geometry(FRESH_PEN, cmds)
  {
    var parts: Parts, current: seq<Pt> := [], [];
    var x, y, i := 0, 0, 0;
    while i < |cmds|
      invariant 0 <= i <= |cmds|
      invariant Geometry(Pen(x, y, current, parts), cmds[i..]) == Geometry(FRESH_PEN, cmds)
    {
      var op, count := cmds[i] % 8, cmds[i] / 8;
      ghost var here := Pen(x, y, current, parts);
      assert cmds[i..][1..] == cmds[i + 1..];
      i := i + 1;
      if op == 1 || op == 2 {
        ghost var start := i;
        for n := 0 to count
          invariant start <= i <= |cmds|
          invariant Draw(op == 1, count - n, Pen(x, y, current, parts), cmds[i..])
                 == Draw(op == 1, count, here, cmds[start..])
        {
          if op == 1 && current != [] {
            parts, current := parts + [current], [];
          }
          if i + 1 >= |cmds| {
            return None;
          }
          assert cmds[i..][2..] == cmds[i + 2..];
          x, y := x + Zigzag(cmds[i]), y + Zigzag(cmds[i + 1]);
          i := i + 2;
          current := current + [Pt(x, y)];
        }
      } else if op == 7 {
        if current != [] {
          current := current + [current[0]];
        }
      } else {
        return None;
      }
    }
    if current != [] {
      parts := parts + [current];
    }
    return Some(parts);
  }

  // ----- field lists of features and layers -----

  /** The values of the fields numbered `num`, in stream order. */
  function Project(fs: seq<Field>, num: nat): seq<Val> {
    if fs == [] then []
    else
      var before := Project(fs[..|fs| - 1], num);
      var f := fs[|fs| - 1];
      if f.num == num then before + [f.val] else before
  }

  function Last<T>(ts: seq<T>, default: T): T {
    if ts == [] then default else ts[|ts| - 1]
  }

  /** Every value read with `read`, or None where one of them raises. */
  function ReadAll<T>(read: Val -> Option<T>, vals: seq<Val>): (r: Option<seq<T>>)
    ensures r.Some? ==> |r.value| == |vals|
  {
    if vals == [] then Some([])
    else
      match ReadAll(read, vals[..|vals| - 1])
      case None => None
      case Some(ts) =>
        match read(vals[|vals| - 1])
        case None => None
        case Some(t) => Some(ts + [t])
  }

  function AsStr(utf8: Utf8): Val -> Option<string> {
    (val: Val) => if val.Num? then None else utf8(val.b)
  }

  function AsValue(utf8: Utf8): Val -> Option<Value> {
    (val: Val) => if val.Num? then None else ValueMessage(utf8, val.b)
  }

  function AsPacked(): Val -> Option<seq<nat>> {
    (val: Val) => if val.Num? then None else Unpack(val.b)
  }

  /** The property dictionary of alternating key and value indices; a trailing
      odd index is ignored and a repeated key keeps its last value. */
  function Props(keys: seq<string>, values: seq<Value>, tags: seq<nat>, n: nat): Option<map<string, Value>>
    requires 2 * n <= |tags|
  {
    if n == 0 then Some(map[])
    else
      match Props(keys, values, tags, n - 1)
      case None => None
      case Some(m) =>
        var k, v := tags[2 * n - 2], tags[2 * n - 1];
        if k < |keys| && v < |values| then Some(m[keys[k] := values[v]]) else None
  }

  /** What the fields numbered `num` come to when each is read with `read`. */
  function Collect<T>(read: Val -> Option<T>, fs: seq<Field>, num: nat): Option<seq<T>> {
    ReadAll(read, Project(fs, num))
  }

  /** A feature message by the projections of its field list. */
  function FeatureOf(keys: seq<string>, values: seq<Value>, fs: seq<Field>): Option<Feature> {
    match Collect(AsPacked(), fs, 2)
    case None => None
    case Some(tags) =>
      match Collect(AsPacked(), fs, 4)
      case None => None
      case Some(cmds) =>
        match Props(keys, values, Flatten(tags), |Flatten(tags)| / 2)
        case None => None
        case Some(props) =>
          match Geometry(FRESH_PEN, Flatten(cmds))
          case None => None
          case Some(parts) => Some(Feature(props, Last(Project(fs, 3), Num(0)), parts))
  }

  function FeatureMessage(keys: seq<string>, values: seq<Value>): Val -> Option<Feature> {
    (val: Val) =>
      if val.Num? then None
      else
        match Fields(val.b)
        case None => None
        case Some(fs) => FeatureOf(keys, values, fs)
  }

  datatype LayerParts = LayerParts(name: Option<string>, extent: Val, keys: seq<string>,
                                   values: seq<Value>, features: seq<Val>)

  /** The five projections of a layer's fields that the decoder keeps. */
  function PartsOf(utf8: Utf8, fs: seq<Field>): Option<LayerParts> {
    match Collect(AsStr(utf8), fs, 1)
    case None => None
    case Some(names) =>
      match Collect(AsStr(utf8), fs, 3)
      case None => None
      case Some(keys) =>
        match Collect(AsValue(utf8), fs, 4)
        case None => None
        case Some(values) =>
          Some(LayerParts(if names == [] then None else Some(Last(names, "")),
                          Last(Project(fs, 5), Num(DEFAULT_EXTENT)), keys, values, Project(fs, 2)))
  }

  /** A layer message by the projections of its field list: its name, if it has
      one, and the layer. */
  function LayerOf(utf8: Utf8, fs: seq<Field>): Option<(Option<string>, Layer)> {
    match PartsOf(utf8, fs)
    case None => None
    case Some(parts) =>
      match ReadAll(FeatureMessage(parts.keys, parts.values), parts.features)
      case None => None
      case Some(features) => Some((parts.name, Layer(parts.extent, features)))
  }

  function LayerMessage(utf8: Utf8): Val -> Option<(Option<string>, Layer)> {
    (val: Val) =>
      if val.Num? then None
      else
        match Fields(val.b)
        case None => None
        case Some(fs) => LayerOf(utf8, fs)
  }

  /** The layer dictionary: unnamed layers are dropped and a later layer of the
      same name replaces an earlier one. */
  function Named(layers: seq<(Option<string>, Layer)>): map<string, Layer> {
    if layers == [] then map[]
    else
      var (name, layer) := layers[|layers| - 1];
      var before := Named(layers[..|layers| - 1]);
      match name case None => before case Some(s) => before[s := layer]
  }

  function TileOf(utf8: Utf8, fs: seq<Field>): Option<map<string, Layer>> {
    match Collect(LayerMessage(utf8), fs, 3)
    case None => None
    case Some(layers) => Some(Named(layers))
  }

  function TileMessage(utf8: Utf8, data: seq<byte>): Option<map<string, Layer>> {
    match Fields(data)
    case None => None
    case Some(fs) => TileOf(utf8, fs)
  }

  type Gunzip = seq<byte> -> Option<seq<byte>>

  function Tile(utf8: Utf8, gunzip: Gunzip, data: seq<byte>): Option<map<string, Layer>> {
    if GZIP_MAGIC <= data then
      match gunzip(data)
      case None => None
      case Some(plain) => TileMessage(utf8, plain)
    else TileMessage(utf8, data)
  }

  // ----- the decoder's loops -----

  lemma ProjectStep(fs: seq<Field>, i: nat, num: nat)
    requires i < |fs|
    ensures Project(fs[..i + 1], num)
         == if fs[i].num == num then Project(fs[..i], num) + [fs[i].val] else Project(fs[..i], num)
  {
    assert fs[..i + 1][..i] == fs[..i];
  }

  lemma ReadAllStep<T>(read: Val -> Option<T>, vals: seq<Val>, val: Val)
    ensures ReadAll(read, vals + [val])
         == match ReadAll(read, vals)
            case None => None
            case Some(ts) => (match read(val) case None => None case Some(t) => Some(ts + [t]))
  {
    assert (vals + [val])[..|vals|] == vals;
  }

  lemma {:induction false} ReadAllFails<T>(read: Val -> Option<T>, fs: seq<Field>, num: nat, i: nat)
    requires i <= |fs| && ReadAll(read, Project(fs[..i], num)) == None
    ensures ReadAll(read, Project(fs, num)) == None
    decreases |fs| - i
  {
    if i == |fs| {
      assert fs[..i] == fs;
    } else {
      ProjectStep(fs, i, num);
      if fs[i].num == num {
        ReadAllStep(read, Project(fs[..i], num), fs[i].val);
      }
      ReadAllFails(read, fs, num, i + 1);
    }
  }

  lemma CollectStep<T>(read: Val -> Option<T>, fs: seq<Field>, i: nat, num: nat, ts: seq<T>)
    requires i < |fs| && Collect(read, fs[..i], num) == Some(ts)
    ensures fs[i].num != num ==> Collect(read, fs[..i + 1], num) == Some(ts)
    ensures fs[i].num == num && read(fs[i].val).Some? ==>
      Collect(read, fs[..i + 1], num) == Some(ts + [read(fs[i].val).value])
    ensures fs[i].num == num && read(fs[i].val).None? ==> Collect(read, fs, num) == None
  {
    ProjectStep(fs, i, num);
    if fs[i].num == num {
      ReadAllStep(read, Project(fs[..i], num), fs[i].val);
      if read(fs[i].val).None? {
        ReadAllFails(read, fs, num, i + 1);
      }
    }
  }

  method ReadPackedField(val: Val) returns (r: Option<seq<nat>>)
    ensures r == AsPacked()(val)
  {
    if val.Num? {
      return None;
    }
    r := ReadPacked(val.b);
  }

  method FeatureFields(fs: seq<Field>) returns (r: Option<(seq<nat>, Val, seq<nat>)>)
    ensures r.None? <==> Collect(AsPacked(), fs, 2).None? || Collect(AsPacked(), fs, 4).None?
    ensures r.Some? ==> r.value.0 == Flatten(Collect(AsPacked(), fs, 2).value)
                        && r.value.1 == Last(Project(fs, 3), Num(0))
                        && r.value.2 == Flatten(Collect(AsPacked(), fs, 4).value)
  {
    var tags: seq<nat>, gtype, commands: seq<nat> := [], Num(0), [];
    ghost var tagChunks: seq<seq<nat>>, cmdChunks: seq<seq<nat>> := [], [];
    for i := 0 to |fs|
      invariant Collect(AsPacked(), fs[..i], 2) == Some(tagChunks) && tags == Flatten(tagChunks)
      invariant Collect(AsPacked(), fs[..i], 4) == Some(cmdChunks) && commands == Flatten(cmdChunks)
      invariant gtype == Last(Project(fs[..i], 3), Num(0))
    {
      var f := fs[i];
      CollectStep(AsPacked(), fs, i, 2, tagChunks);
      ProjectStep(fs, i, 3);
      CollectStep(AsPacked(), fs, i, 4, cmdChunks);
      if f.num == 2 {
        var chunk := ReadPackedField(f.val);
        if chunk == None {
          return None;
        }
        FlattenSnoc(tagChunks, chunk.value);
        tags, tagChunks := tags + chunk.value, tagChunks + [chunk.value];
      } else if f.num == 3 {
        gtype := f.val;
      } else if f.num == 4 {
        var chunk := ReadPackedField(f.val);
        if chunk == None {
          return None;
        }
        FlattenSnoc(cmdChunks, chunk.value);
        commands, cmdChunks := commands + chunk.value, cmdChunks + [chunk.value];
      }
    }
    assert fs[..|fs|] == fs;
    return Some((tags, gtype, commands));
  }

  method BuildProps(keys: seq<string>, values: seq<Value>, tags: seq<nat>) returns (r: Option<map<string, Value>>)
    ensures r == Props(keys, values, tags, |tags| / 2)
  {
    var props: map<string, Value> := map[];
    for n := 0 to |tags| / 2
      invariant Props(keys, values, tags, n) == Some(props)
    {
      var k, v := tags[2 * n], tags[2 * n + 1];
      if k >= |keys| || v >= |values| {
        PropsFails(keys, values, tags, n + 1, |tags| / 2);
        return None;
      }
      props := props[keys[k] := values[v]];
    }
    return Some(props);
  }

  lemma {:induction false} PropsFails(keys: seq<string>, values: seq<Value>, tags: seq<nat>, n: nat, m: nat)
    requires n <= m && 2 * m <= |tags| && Props(keys, values, tags, n) == None
    ensures Props(keys, values, tags, m) == None
    decreases m
  {
    if n < m {
      PropsFails(keys, values, tags, n, m - 1);
    }
  }

  method DecodeFeature(keys: seq<string>, values: seq<Value>, fbuf: Val) returns (r: Option<Feature>)
    ensures r == FeatureMessage(keys, values)(fbuf)
  {
    if fbuf.Num? {
      return None;
    }
    var fs := ReadFields(fbuf.b);
    if fs == None {
      return None;
    }
    var read := FeatureFields(fs.value);
    if read == None {
      return None;
    }
    var (tags, gtype, commands) := read.value;
    var props := BuildProps(keys, values, tags);
    if props == None {
      return None;
    }
    var parts := DecodeGeometry(commands);
    r := if parts == None then None else Some(Feature(props.value, gtype, parts.value));
  }

  method ReadStr(utf8: Utf8, val: Val) returns (r: Option<string>)
    ensures r == AsStr(utf8)(val)
  {
    r := if val.Num? then None else utf8(val.b);
  }

  method ReadValue(utf8: Utf8, val: Val) returns (r: Option<Value>)
    ensures r == AsValue(utf8)(val)
  {
    if val.Num? {
      return None;
    }
    r := DecodeValue(utf8, val.b);
  }

  /** One more field: the parts grow by it, or reading it raises. */
  function AddField(utf8: Utf8, parts: LayerParts, f: Field): Option<LayerParts> {
    match f.num
    case 1 => (match AsStr(utf8)(f.val) case None => None case Some(s) => Some(parts.(name := Some(s))))
    case 2 => Some(parts.(features := parts.features + [f.val]))
    case 3 => (match AsStr(utf8)(f.val) case None => None case Some(s) => Some(parts.(keys := parts.keys + [s])))
    case 4 => (match AsValue(utf8)(f.val) case None => None case Some(v) => Some(parts.(values := parts.values + [v])))
    case 5 => Some(parts.(extent := f.val))
    case _ => Some(parts)
  }

  /** A layer's parts put together from what its fields come to. */
  lemma PartsFrom(utf8: Utf8, fs: seq<Field>, names: seq<string>, keys: seq<string>, values: seq<Value>)
    requires Collect(AsStr(utf8), fs, 1) == Some(names) && Collect(AsStr(utf8), fs, 3) == Some(keys)
    requires Collect(AsValue(utf8), fs, 4) == Some(values)
    ensures PartsOf(utf8, fs)
         == Some(LayerParts(if names == [] then None else Some(Last(names, "")),
                            Last(Project(fs, 5), Num(DEFAULT_EXTENT)), keys, values, Project(fs, 2)))
  {
  }

  lemma PartsFail(utf8: Utf8, fs: seq<Field>, i: nat, parts: LayerParts)
    requires i < |fs| && PartsOf(utf8, fs[..i]) == Some(parts) && AddField(utf8, parts, fs[i]).None?
    ensures PartsOf(utf8, fs) == None
  {
    CollectStep(AsStr(utf8), fs, i, 1, Collect(AsStr(utf8), fs[..i], 1).value);
    CollectStep(AsStr(utf8), fs, i, 3, parts.keys);
    CollectStep(AsValue(utf8), fs, i, 4, parts.values);
  }

  lemma PartsStep(utf8: Utf8, fs: seq<Field>, i: nat, parts: LayerParts)
    requires i < |fs| && PartsOf(utf8, fs[..i]) == Some(parts) && AddField(utf8, parts, fs[i]).Some?
    ensures PartsOf(utf8, fs[..i + 1]) == AddField(utf8, parts, fs[i])
  {
    var f, names := fs[i], Collect(AsStr(utf8), fs[..i], 1).value;
    CollectStep(AsStr(utf8), fs, i, 1, names);
    ProjectStep(fs, i, 2);
    CollectStep(AsStr(utf8), fs, i, 3, parts.keys);
    CollectStep(AsValue(utf8), fs, i, 4, parts.values);
    ProjectStep(fs, i, 5);
    var names' := if f.num == 1 then names + [AsStr(utf8)(f.val).value] else names;
    var keys' := if f.num == 3 then parts.keys + [AsStr(utf8)(f.val).value] else parts.keys;
    var values' := if f.num == 4 then parts.values + [AsValue(utf8)(f.val).value] else parts.values;
    PartsFrom(utf8, fs[..i + 1], names', keys', values');
  }

  method LayerFields(utf8: Utf8, fs: seq<Field>) returns (r: Option<LayerParts>)
    ensures r == PartsOf(utf8, fs)
  {
    var name: Option<string>, extent := None, Num(DEFAULT_EXTENT);
    var keys: seq<string>, values: seq<Value>, features: seq<Val> := [], [], [];
    for i := 0 to |fs|
      invariant PartsOf(utf8, fs[..i]) == Some(LayerParts(name, extent, keys, values, features))
    {
      var f := fs[i];
      ghost var parts := LayerParts(name, extent, keys, values, features);
      if AddField(utf8, parts, f).Some? {
        PartsStep(utf8, fs, i, parts);
      } else {
        PartsFail(utf8, fs, i, parts);
      }
      if f.num == 1 {
        name := ReadStr(utf8, f.val);
        if name == None {
          return None;
        }
      } else if f.num == 5 {
        extent := f.val;
      } else if f.num == 3 {
        var key := ReadStr(utf8, f.val);
        if key == None {
          return None;
        }
        keys := keys + [key.value];
      } else if f.num == 4 {
        var v := ReadValue(utf8, f.val);
        if v == None {
          return None;
        }
        values := values + [v.value];
      } else if f.num == 2 {
        features := features + [f.val];
      }
    }
    assert fs[..|fs|] == fs;
    return Some(LayerParts(name, extent, keys, values, features));
  }

  method DecodeFeatures(keys: seq<string>, values: seq<Value>, bufs: seq<Val>) returns (r: Option<seq<Feature>>)
    ensures r == ReadAll(FeatureMessage(keys, values), bufs)
  {
    var features: seq<Feature> := [];
    for i := 0 to |bufs|
      invariant ReadAll(FeatureMessage(keys, values), bufs[..i]) == Some(features)
    {
      ReadAllExtend(FeatureMessage(keys, values), bufs, i, features);
      var feature := DecodeFeature(keys, values, bufs[i]);
      if feature == None {
        return None;
      }
      features := features + [feature.value];
    }
    assert bufs[..|bufs|] == bufs;
    return Some(features);
  }

  lemma {:induction false} ReadAllPrefix<T>(read: Val -> Option<T>, vals: seq<Val>, i: nat)
    requires i <= |vals| && ReadAll(read, vals[..i]) == None
    ensures ReadAll(read, vals) == None
    decreases |vals| - i
  {
    if i == |vals| {
      assert vals[..i] == vals;
    } else {
      ReadAllNext(read, vals, i);
      ReadAllPrefix(read, vals, i + 1);
    }
  }

  lemma ReadAllExtend<T>(read: Val -> Option<T>, vals: seq<Val>, i: nat, ts: seq<T>)
    requires i < |vals| && ReadAll(read, vals[..i]) == Some(ts)
    ensures ReadAll(read, vals[..i + 1]) == match read(vals[i]) case None => None case Some(t) => Some(ts + [t])
    ensures read(vals[i]).None? ==> ReadAll(read, vals) == None
  {
    ReadAllNext(read, vals, i);
    if read(vals[i]).None? {
      ReadAllPrefix(read, vals, i + 1);
    }
  }

  lemma ReadAllNext<T>(read: Val -> Option<T>, vals: seq<Val>, i: nat)
    requires i < |vals|
    ensures ReadAll(read, vals[..i + 1])
         == match ReadAll(read, vals[..i])
            case None => None
            case Some(ts) => (match read(vals[i]) case None => None case Some(t) => Some(ts + [t]))
  {
    PrefixSnoc(vals, i);
    ReadAllStep(read, vals[..i], vals[i]);
  }

  method DecodeLayer(utf8: Utf8, layerBuf: Val) returns (r: Option<(Option<string>, Layer)>)
    ensures r == LayerMessage(utf8)(layerBuf)
  {
    if layerBuf.Num? {
      return None;
    }
    var fs := ReadFields(layerBuf.b);
    if fs == None {
      return None;
    }
    var read := LayerFields(utf8, fs.value);
    if read == None {
      return None;
    }
    var parts := read.value;
    var features := DecodeFeatures(parts.keys, parts.values, parts.features);
    r := if features == None then None else Some((parts.name, Layer(parts.extent, features.value)));
  }

  method DecodeLayers(utf8: Utf8, fs: seq<Field>) returns (r: Option<map<string, Layer>>)
    ensures r == TileOf(utf8, fs)
  {
    var layers: map<string, Layer> := map[];
    ghost var decoded: seq<(Option<string>, Layer)> := [];
    for i := 0 to |fs|
      invariant Collect(LayerMessage(utf8), fs[..i], 3) == Some(decoded)
      invariant layers == Named(decoded)
    {
      CollectStep(LayerMessage(utf8), fs, i, 3, decoded);
      if fs[i].num == 3 {
        var layer := DecodeLayer(utf8, fs[i].val);
        if layer == None {
          return None;
        }
        assert (decoded + [layer.value])[..|decoded|] == decoded;
        decoded := decoded + [layer.value];
        if layer.value.0.Some? {
          layers := layers[layer.value.0.value := layer.value.1];
        }
      }
    }
    assert fs[..|fs|] == fs;
    return Some(layers);
  }

  /** The whole decoder. */
  method Decode(utf8: Utf8, gunzip: Gunzip, data: seq<byte>) returns (r: Option<map<string, Layer>>)
    ensures r == Tile(utf8, gunzip, data)
  {
    var plain := data;
    if |data| >= 2 && data[..2] == GZIP_MAGIC {
      var unzipped := gunzip(data);
      if unzipped == None {
        return None;
      }
      plain := unzipped.value;
    }
    var fs := ReadFields(plain);
    if fs == None {
      return None;
    }
    r := DecodeLayers(utf8, fs.value);
  }
}
