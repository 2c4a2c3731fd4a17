/**
 A concrete encoder: per layer the version, the name, the features, the key table
 in order of first use, the values without sharing, and the extent. It shows that
 every well-formed tile has an encoding, and so closes the round trip.
 */
module TileEncoder {
  import opened Prelude
  import opened Wire
  import opened VectorTile
  import opened TileCodec

  predicate HasKeys(keys: seq<string>, props: seq<(string, SrcValue)>) {
    forall i :: 0 <= i < |props| ==> props[i].0 in keys
  }

  predicate KeysCover(keys: seq<string>, features: seq<SrcFeature>) {
    forall i :: 0 <= i < |features| ==> HasKeys(keys, features[i].props)
  }

  function AddKeys(keys: seq<string>, props: seq<(string, SrcValue)>): (r: seq<string>)
    ensures forall k :: k in keys ==> k in r
    ensures HasKeys(r, props)
    decreases |props|
  {
    if props == [] then keys
    else
      var r := AddKeys(if props[0].0 in keys then keys else keys + [props[0].0], props[1..]);
      assert forall i :: 1 <= i < |props| ==> props[i] == props[1..][i - 1];
      r
  }

  function KeyTable(keys: seq<string>, features: seq<SrcFeature>): (r: seq<string>)
    ensures forall k :: k in keys ==> k in r
    ensures KeysCover(r, features)
    decreases |features|
  {
    if features == [] then keys
    else
      var r := KeyTable(AddKeys(keys, features[0].props), features[1..]);
      assert forall i :: 1 <= i < |features| ==> features[i] == features[1..][i - 1];
      r
  }

  function PropValues(props: seq<(string, SrcValue)>): seq<SrcValue> {
    seq(|props|, i requires 0 <= i < |props| => props[i].1)
  }

  function ValueTable(features: seq<SrcFeature>): seq<SrcValue> {
    if features == [] then [] else PropValues(features[0].props) + ValueTable(features[1..])
  }

  /** Alternating key and value indices; the values start at `base`. */
  function TagsOf(keys: seq<string>, base: nat, props: seq<(string, SrcValue)>): (tags: seq<nat>)
    requires HasKeys(keys, props)
  {
    seq(2 * |props|, k requires 0 <= k < 2 * |props| =>
      if k % 2 == 0 then PositionOf(keys, props[k / 2].0) else base + k / 2)
  }

  /** The fields of one number, one per value. */
  datatype Col = Col(num: nat, wire: nat, vals: seq<Val>)

  function Column(num: nat, wire: nat, vals: seq<Val>): seq<Field> {
    seq(|vals|, i requires 0 <= i < |vals| => Field(num, wire, vals[i]))
  }

  function Rows(cols: seq<Col>): seq<Field> {
    if cols == [] then [] else Column(cols[0].num, cols[0].wire, cols[0].vals) + Rows(cols[1..])
  }

  predicate WritableCols(cols: seq<Col>) {
    forall c :: c in cols ==> AllWritable(Column(c.num, c.wire, c.vals))
  }

  lemma {:induction false} RowsWritable(cols: seq<Col>)
    requires WritableCols(cols)
    ensures AllWritable(Rows(cols))
  {
    if cols != [] {
      assert cols[0] in cols;
      RowsWritable(cols[1..]);
    }
  }

  lemma {:induction false} ProjectColumn(num: nat, wire: nat, vals: seq<Val>, n: nat)
    ensures Project(Column(num, wire, vals), n) == if n == num then vals else []
    decreases |vals|
  {
    if vals != [] {
      var m := |vals| - 1;
      assert Column(num, wire, vals)[..m] == Column(num, wire, vals[..m]);
      ProjectColumn(num, wire, vals[..m], n);
      assert vals == vals[..m] + [vals[m]];
    }
  }

  lemma {:induction false} RowsSkip(cols: seq<Col>, n: nat)
    requires forall c :: c in cols ==> c.num != n
    ensures Project(Rows(cols), n) == []
  {
    if cols != [] {
      var first := Column(cols[0].num, cols[0].wire, cols[0].vals);
      assert cols[0] in cols;
      ProjectAppend(first, Rows(cols[1..]), n);
      ProjectColumn(cols[0].num, cols[0].wire, cols[0].vals, n);
      RowsSkip(cols[1..], n);
    }
  }

  predicate DistinctNums(cols: seq<Col>) {
    forall i, j :: 0 <= i < j < |cols| ==> cols[i].num != cols[j].num
  }

  lemma RowsNext(cols: seq<Col>, n: nat)
    requires cols != []
    ensures Project(Rows(cols), n) == (if cols[0].num == n then cols[0].vals else []) + Project(Rows(cols[1..]), n)
  {
    ProjectAppend(Column(cols[0].num, cols[0].wire, cols[0].vals), Rows(cols[1..]), n);
    ProjectColumn(cols[0].num, cols[0].wire, cols[0].vals, n);
  }

  /** A number used by one column projects to that column's values. */
  lemma {:induction false} RowsProject(cols: seq<Col>, i: nat)
    requires i < |cols| && DistinctNums(cols)
    ensures Project(Rows(cols), cols[i].num) == cols[i].vals
  {
    RowsNext(cols, cols[i].num);
    if i == 0 {
      RowsSkip(cols[1..], cols[0].num);
      assert cols[0].vals + [] == cols[0].vals;
    } else {
      RowsProject(cols[1..], i - 1);
      assert cols[1..][i - 1] == cols[i] && cols[0].num != cols[i].num;
    }
  }

  function FeatureCols(tags: seq<nat>, gtype: nat, cmds: seq<nat>): seq<Col> {
    [Col(2, 2, [Bytes(Pack(tags))]), Col(3, 0, [Num(gtype)]), Col(4, 2, [Bytes(Pack(cmds))])]
  }

  function WriteFeature(keys: seq<string>, base: nat, f: SrcFeature): FeatureWire
    requires HasKeys(keys, f.props)
    requires Drawable(f.figures)
  {
    var tags := TagsOf(keys, base, f.props);
    var cmds := Commands(0, 0, f.figures);
    FeatureWire(Rows(FeatureCols(tags, f.gtype, cmds)), [tags], [cmds])
  }

  predicate WellFormedFeature(f: SrcFeature) {
    Drawable(f.figures) && forall i :: 0 <= i < |f.props| ==> InRange(f.props[i].1)
  }

  predicate WellFormed(features: seq<SrcFeature>) {
    forall i :: 0 <= i < |features| ==> WellFormedFeature(features[i])
  }

  lemma TailOk(keys: seq<string>, features: seq<SrcFeature>)
    requires features != [] && KeysCover(keys, features) && WellFormed(features)
    ensures HasKeys(keys, features[0].props) && WellFormedFeature(features[0])
    ensures KeysCover(keys, features[1..]) && WellFormed(features[1..])
  {
  }

  function WriteFeatures(keys: seq<string>, base: nat, features: seq<SrcFeature>): (ws: seq<FeatureWire>)
    requires KeysCover(keys, features)
    requires WellFormed(features)
    ensures |ws| == |features|
    decreases |features|
  {
    if features == [] then []
    else
      TailOk(keys, features);
      [WriteFeature(keys, base, features[0])]
      + WriteFeatures(keys, base + |features[0].props|, features[1..])
  }

  predicate AllFeaturesWritable(ws: seq<FeatureWire>) {
    forall i :: 0 <= i < |ws| ==> AllWritable(ws[i].fields)
  }

  function Payloads(ws: seq<FeatureWire>): seq<Val>
    requires AllFeaturesWritable(ws)
  {
    seq(|ws|, i requires 0 <= i < |ws| && AllWritable(ws[i].fields) => Bytes(Message(ws[i].fields)))
  }

  lemma {:induction false} ValueTableInRange(features: seq<SrcFeature>)
    requires WellFormed(features)
    ensures forall v :: v in ValueTable(features) ==> InRange(v)
  {
    if features != [] {
      ValueTableInRange(features[1..]);
    }
  }

  function LayerCols(name: Val, fs: seq<Val>, ks: seq<Val>, vs: seq<Val>, extent: nat): seq<Col> {
    [Col(15, 0, [Num(2)]), Col(1, 2, [name]), Col(2, 2, fs), Col(3, 2, ks), Col(4, 2, vs), Col(5, 0, [Num(extent)])]
  }

  lemma FeatureWritable(keys: seq<string>, base: nat, f: SrcFeature)
    requires HasKeys(keys, f.props) && Drawable(f.figures)
    ensures AllWritable(WriteFeature(keys, base, f).fields)
  {
    FeatureColsWritable(TagsOf(keys, base, f.props), f.gtype, Commands(0, 0, f.figures));
  }

  ghost function WritableRelation(): (FeatureWire, SrcFeature) -> bool {
    (w: FeatureWire, f: SrcFeature) => AllWritable(w.fields)
  }

  lemma FeaturesWritable(keys: seq<string>, features: seq<SrcFeature>)
    requires KeysCover(keys, features) && WellFormed(features)
    ensures AllFeaturesWritable(WriteFeatures(keys, 0, features))
  {
    var rel, values := WritableRelation(), ValueTable(features);
    forall base: nat, f | InTables(keys, values, base, f) ensures rel(WriteFeature(keys, base, f), f) {
      FeatureWritable(keys, base, f);
    }
    FeaturesEncoded(rel, keys, values, 0, features);
    assert AllPairs(rel, WriteFeatures(keys, 0, features), features);
  }

  function WriteLayer(enc: Utf8Encoder, l: SrcLayer): LayerWire
    requires WellFormed(l.features)
  {
    var keys := KeyTable([], l.features);
    var values := ValueTable(l.features);
    var features := WriteFeatures(keys, 0, l.features);
    ValueTableInRange(l.features);
    FeaturesWritable(keys, l.features);
    LayerWire(
      Rows(LayerCols(Bytes(enc(l.name)), Payloads(features), Strings(enc, keys), Values(enc, values), l.extent)),
      keys, values, features)
  }

  lemma SingleChunk(chunk: seq<nat>)
    ensures Flatten([chunk]) == chunk && Packed([chunk]) == [Bytes(Pack(chunk))]
  {
    assert [chunk][1..] == [] && chunk + [] == chunk;
  }

  lemma TagsAt(keys: seq<string>, base: nat, props: seq<(string, SrcValue)>, i: nat)
    requires HasKeys(keys, props)
    requires i < |props|
    ensures TagsOf(keys, base, props)[2 * i] == PositionOf(keys, props[i].0)
    ensures TagsOf(keys, base, props)[2 * i + 1] == base + i
  {
    assert (2 * i) % 2 == 0 && (2 * i) / 2 == i && (2 * i + 1) % 2 == 1 && (2 * i + 1) / 2 == i;
  }

  lemma TagsEncoded(keys: seq<string>, values: seq<SrcValue>, base: nat, props: seq<(string, SrcValue)>)
    requires HasKeys(keys, props)
    requires base <= |values| && PropValues(props) <= values[base..]
    ensures TagsFor(keys, values, TagsOf(keys, base, props), props)
  {
    var tags := TagsOf(keys, base, props);
    forall i | 0 <= i < |props|
      ensures && tags[2 * i] < |keys| && keys[tags[2 * i]] == props[i].0
              && tags[2 * i + 1] < |values| && values[tags[2 * i + 1]] == props[i].1
    {
      TagsAt(keys, base, props, i);
      assert values[base..][i] == PropValues(props)[i];
    }
  }

  lemma FeatureColsWritable(tags: seq<nat>, gtype: nat, cmds: seq<nat>)
    ensures AllWritable(Rows(FeatureCols(tags, gtype, cmds)))
  {
    RowsWritable(FeatureCols(tags, gtype, cmds));
  }

  lemma FeatureEncoded(keys: seq<string>, values: seq<SrcValue>, base: nat, f: SrcFeature)
    requires HasKeys(keys, f.props)
    requires WellFormedFeature(f)
    requires base <= |values| && PropValues(f.props) <= values[base..]
    ensures EncodesFeature(keys, values, WriteFeature(keys, base, f), f)
  {
    var w := WriteFeature(keys, base, f);
    var cols := FeatureCols(w.tags[0], f.gtype, w.cmds[0]);
    FeatureColsWritable(w.tags[0], f.gtype, w.cmds[0]);
    RowsProject(cols, 0);
    RowsProject(cols, 1);
    RowsProject(cols, 2);
    SingleChunk(w.tags[0]);
    SingleChunk(w.cmds[0]);
    TagsEncoded(keys, values, base, f.props);
  }

  /** A feature that the tables hold, its values from `base` on. */
  predicate InTables(keys: seq<string>, values: seq<SrcValue>, base: nat, f: SrcFeature) {
    HasKeys(keys, f.props) && WellFormedFeature(f) && base <= |values| && PropValues(f.props) <= values[base..]
  }

  ghost predicate Relates(rel: (FeatureWire, SrcFeature) -> bool, keys: seq<string>, values: seq<SrcValue>) {
    forall base: nat, f :: InTables(keys, values, base, f) ==> rel(WriteFeature(keys, base, f), f)
  }

  lemma EncodingRelates(keys: seq<string>, values: seq<SrcValue>)
    ensures Relates(FeatureRelation(keys, values), keys, values)
  {
    forall base: nat, f | InTables(keys, values, base, f)
      ensures FeatureRelation(keys, values)(WriteFeature(keys, base, f), f)
    {
      FeatureEncoded(keys, values, base, f);
    }
  }

  lemma TableTail(values: seq<SrcValue>, base: nat, features: seq<SrcFeature>)
    requires features != [] && base <= |values| && values[base..] == ValueTable(features)
    ensures var n := |features[0].props|;
            && base + n <= |values| && values[base + n..] == ValueTable(features[1..])
            && PropValues(features[0].props) <= values[base..]
  {
    var n := |features[0].props|;
    assert values[base + n..] == values[base..][n..];
  }

  lemma FeaturesCons(rel: (FeatureWire, SrcFeature) -> bool, keys: seq<string>, base: nat, features: seq<SrcFeature>)
    requires features != [] && KeysCover(keys, features) && WellFormed(features)
    requires HasKeys(keys, features[0].props) && KeysCover(keys, features[1..]) && WellFormed(features[1..])
    requires rel(WriteFeature(keys, base, features[0]), features[0])
    requires AllPairs(rel, WriteFeatures(keys, base + |features[0].props|, features[1..]), features[1..])
    ensures AllPairs(rel, WriteFeatures(keys, base, features), features)
  {
    var x, xs := WriteFeature(keys, base, features[0]), WriteFeatures(keys, base + |features[0].props|, features[1..]);
    AllPairsCons(rel, x, features[0], xs, features[1..]);
    assert features == [features[0]] + features[1..];
  }

  lemma {:induction false} FeaturesEncoded(rel: (FeatureWire, SrcFeature) -> bool, keys: seq<string>,
                                           values: seq<SrcValue>, base: nat, features: seq<SrcFeature>)
    requires KeysCover(keys, features) && WellFormed(features) && Relates(rel, keys, values)
    requires base <= |values| && values[base..] == ValueTable(features)
    ensures AllPairs(rel, WriteFeatures(keys, base, features), features)
    decreases |features|
  {
    if features != [] {
      TailOk(keys, features);
      TableTail(values, base, features);
      assert InTables(keys, values, base, features[0]);
      FeaturesEncoded(rel, keys, values, base + |features[0].props|, features[1..]);
      FeaturesCons(rel, keys, base, features);
    }
  }

  lemma LayerColsWritable(name: Val, fs: seq<Val>, ks: seq<Val>, vs: seq<Val>, extent: nat)
    requires name.Bytes? && forall v :: v in fs || v in ks || v in vs ==> v.Bytes?
    ensures AllWritable(Rows(LayerCols(name, fs, ks, vs, extent)))
  {
    RowsWritable(LayerCols(name, fs, ks, vs, extent));
  }

  lemma LayerColsProject(name: Val, fs: seq<Val>, ks: seq<Val>, vs: seq<Val>, extent: nat)
    ensures var rows := Rows(LayerCols(name, fs, ks, vs, extent));
            && Project(rows, 1) == [name]
            && Project(rows, 2) == fs
            && Project(rows, 3) == ks
            && Project(rows, 4) == vs
            && Project(rows, 5) == [Num(extent)]
  {
    var cols := LayerCols(name, fs, ks, vs, extent);
    RowsProject(cols, 1);
    RowsProject(cols, 2);
    RowsProject(cols, 3);
    RowsProject(cols, 4);
    RowsProject(cols, 5);
  }

  lemma LayerEncoded(enc: Utf8Encoder, l: SrcLayer)
    requires WellFormed(l.features)
    ensures EncodesLayer(enc, WriteLayer(enc, l), l)
  {
    var w := WriteLayer(enc, l);
    FeaturesWritable(w.keys, l.features);
    ValueTableInRange(l.features);
    var name, fs, ks, vs := Bytes(enc(l.name)), Payloads(w.features), Strings(enc, w.keys), Values(enc, w.values);
    PlainValuesEncode(enc, w.values);
    LayerColsWritable(name, fs, ks, vs, l.extent);
    LayerColsProject(name, fs, ks, vs, l.extent);
    EncodingRelates(w.keys, w.values);
    FeaturesEncoded(FeatureRelation(w.keys, w.values), w.keys, w.values, 0, l.features);
  }

  function WriteLayers(enc: Utf8Encoder, tile: seq<SrcLayer>): seq<LayerWire>
    requires forall i :: 0 <= i < |tile| ==> WellFormed(tile[i].features)
  {
    seq(|tile|, i requires 0 <= i < |tile| => WriteLayer(enc, tile[i]))
  }

  /** The bytes of a tile. */
  function EncodeTile(enc: Utf8Encoder, tile: seq<SrcLayer>): seq<byte>
    requires forall i :: 0 <= i < |tile| ==> WellFormed(tile[i].features)
  {
    LayersWritable(enc, tile);
    Message(LayerFields(enc, tile))
  }

  function LayerFields(enc: Utf8Encoder, tile: seq<SrcLayer>): seq<Field>
    requires forall i :: 0 <= i < |tile| ==> WellFormed(tile[i].features)
  {
    LayersWritable(enc, tile);
    Column(3, 2, seq(|tile|, i requires 0 <= i < |tile| => Bytes(Message(WriteLayer(enc, tile[i]).fields))))
  }

  lemma LayersWritable(enc: Utf8Encoder, tile: seq<SrcLayer>)
    requires forall i :: 0 <= i < |tile| ==> WellFormed(tile[i].features)
    ensures forall i :: 0 <= i < |tile| ==> AllWritable(WriteLayer(enc, tile[i]).fields)
  {
    forall i | 0 <= i < |tile| ensures AllWritable(WriteLayer(enc, tile[i]).fields) {
      LayerEncoded(enc, tile[i]);
    }
  }

  lemma {:induction false} ValueTableFaithful(features: seq<SrcFeature>)
    requires forall i, j :: 0 <= i < |features| && 0 <= j < |features[i].props| ==>
      !(features[i].props[j].1.SInt64? && features[i].props[j].1.i < 0)
    ensures Faithful(ValueTable(features))
  {
    if features != [] {
      assert forall i :: 0 <= i < |features[1..]| ==> features[1..][i] == features[i + 1];
      ValueTableFaithful(features[1..]);
    }
  }

  /** decode(encode(tile)): names, extents, properties, types and the parts of
      every multipoint, line and ring come back, for every tile with distinct
      layer names, drawable figures and no negative int64. */
  lemma TileRoundTrip(enc: Utf8Encoder, dec: Utf8, gunzip: Gunzip, tile: seq<SrcLayer>)
    requires Inverse(enc, dec) && DistinctNames(tile)
    requires forall i :: 0 <= i < |tile| ==> WellFormed(tile[i].features)
    requires forall h, i, j :: 0 <= h < |tile| && 0 <= i < |tile[h].features| && 0 <= j < |tile[h].features[i].props| ==>
      var v := tile[h].features[i].props[j].1; !(v.SInt64? && v.i < 0)
    ensures var r := Tile(dec, gunzip, EncodeTile(enc, tile));
            && r.Some?
            && (forall s :: s in r.value <==> exists i :: 0 <= i < |tile| && tile[i].name == s)
            && forall i :: 0 <= i < |tile| ==>
                 tile[i].name in r.value && r.value[tile[i].name] == LayerMeaning(tile[i])
  {
    var w := TileWire(LayerFields(enc, tile), WriteLayers(enc, tile));
    LayersWritable(enc, tile);
    var payloads := seq(|tile|, i requires 0 <= i < |tile| => Bytes(Message(WriteLayer(enc, tile[i]).fields)));
    ProjectColumn(3, 2, payloads, 3);
    assert Project(w.fields, 3) == payloads;
    forall i | 0 <= i < |tile|
      ensures EncodesLayer(enc, w.layers[i], tile[i]) && Faithful(w.layers[i].values)
    {
      LayerEncoded(enc, tile[i]);
      ValueTableFaithful(tile[i].features);
    }
    DecodeInvertsEncode(enc, dec, gunzip, w, tile);
  }

  /** A tile that arrives gzipped, told by its first two bytes, is the tile it unpacks to,
      and one that does not unpack is none. */
  lemma GzipIsTransparent(enc: Utf8Encoder, dec: Utf8, gunzip: Gunzip, tile: seq<SrcLayer>, packed: seq<byte>)
    requires forall i :: 0 <= i < |tile| ==> WellFormed(tile[i].features)
    requires |packed| >= 2 && packed[0] == 0x1f && packed[1] == 0x8b
    ensures gunzip(packed) == Some(EncodeTile(enc, tile)) ==>
      Tile(dec, gunzip, packed) == Tile(dec, gunzip, EncodeTile(enc, tile))
    ensures gunzip(packed) == None ==> Tile(dec, gunzip, packed) == None
  {
    LayersWritable(enc, tile);
    NeverLooksGzipped(LayerFields(enc, tile));
  }
}
