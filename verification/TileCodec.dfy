/**
 The vector-tile encoding (Mapbox Vector Tile 2.1, sections 4.1-4.4) as the
 inverse of the decoder. An encoding of a tile is any field stream that carries
 the right fields in the right order per field number; the decoder recovers the
 tile from every one of them. Tables of keys and values, the order between field
 numbers, unknown fields and the cutting of packed lists are all free. A geometry
 is any mix of multipoints, lines and rings, each in the one command stream that
 section 4.3.4 prescribes for it.
 */
module TileCodec {
  import opened Prelude
  import opened Wire
  import opened VectorTile

  type Utf8Encoder = string -> seq<byte>

  ghost predicate Inverse(enc: Utf8Encoder, dec: Utf8) {
    forall s :: dec(enc(s)) == Some(s)
  }

  const TWO64: int := 0x1_0000_0000_0000_0000

  /** A property value together with the wire type it is written in. */
  datatype SrcValue = SStr(s: string) | SFloat(bits: seq<byte>) | SDouble(bits: seq<byte>)
                    | SInt64(i: int) | SUint64(n: nat) | SSint64(i: int) | SBool(v: bool)

  predicate InRange(v: SrcValue) {
    match v
    case SFloat(bits) => |bits| == 4
    case SDouble(bits) => |bits| == 8
    case SInt64(i) => -0x8000_0000_0000_0000 <= i < 0x8000_0000_0000_0000
    case _ => true
  }

  function Meaning(v: SrcValue): Value {
    match v
    case SStr(s) => Str(s)
    case SFloat(bits) => Float(bits)
    case SDouble(bits) => Double(bits)
    case SInt64(i) => Int(i)
    case SUint64(n) => Int(n)
    case SSint64(i) => Int(i)
    case SBool(b) => Bool(b)
  }

  function Unzig(v: int): nat {
    if v >= 0 then 2 * v else -2 * v - 1
  }

  function ValueField(enc: Utf8Encoder, v: SrcValue): (f: Field)
    requires InRange(v)
    ensures Writable(f) && KnownValueField(f.num)
  {
    match v
    case SStr(s) => Field(1, 2, Bytes(enc(s)))
    case SFloat(bits) => Field(2, 5, Bytes(bits))
    case SDouble(bits) => Field(3, 1, Bytes(bits))
    case SInt64(i) => Field(4, 0, Num(if i < 0 then i + TWO64 else i))
    case SUint64(n) => Field(5, 0, Num(n))
    case SSint64(i) => Field(6, 0, Num(Unzig(i)))
    case SBool(b) => Field(7, 0, Num(if b then 1 else 0))
  }

  lemma ValueOfField(enc: Utf8Encoder, dec: Utf8, v: SrcValue)
    requires Inverse(enc, dec) && InRange(v)
    ensures var f := ValueField(enc, v);
            ValueOf(dec, f.num, f.val) == Some(Meaning(v)) <==> !(v.SInt64? && v.i < 0)
  {
    if v.SStr? {
      assert dec(enc(v.s)) == Some(v.s);
    }
  }

  lemma KnownFieldDecides(dec: Utf8, f: Field, tail: seq<byte>)
    requires Writable(f)
    ensures ValueMessage(dec, WriteField(f) + tail)
         == if KnownValueField(f.num) then ValueOf(dec, f.num, f.val) else ValueMessage(dec, tail)
  {
    FieldRoundTrip(f, tail);
  }

  lemma {:induction false} UnknownSkipped(dec: Utf8, unknown: seq<Field>, tail: seq<byte>)
    requires forall f :: f in unknown ==> Writable(f) && !(1 <= f.num <= 7)
    ensures ValueMessage(dec, Message(unknown) + tail) == ValueMessage(dec, tail)
    decreases |unknown|
  {
    if unknown == [] {
      assert Message(unknown) + tail == tail;
    } else {
      var rest := Message(unknown[1..]);
      assert (WriteField(unknown[0]) + rest) + tail == WriteField(unknown[0]) + (rest + tail);
      KnownFieldDecides(dec, unknown[0], rest + tail);
      UnknownSkipped(dec, unknown[1..], tail);
    }
  }

  /** A value survives the trip exactly when it is not a negative int64, which
      the decoder returns as its unsigned two's complement. Unknown fields before
      it are skipped and whatever follows it is never read. */
  lemma ValueRoundTrip(enc: Utf8Encoder, dec: Utf8, v: SrcValue, unknown: seq<Field>, tail: seq<byte>)
    requires Inverse(enc, dec) && InRange(v)
    requires forall f :: f in unknown ==> Writable(f) && !(1 <= f.num <= 7)
    ensures ValueMessage(dec, Message(unknown) + (WriteField(ValueField(enc, v)) + tail)) == Some(Meaning(v))
            <==> !(v.SInt64? && v.i < 0)
  {
    UnknownSkipped(dec, unknown, WriteField(ValueField(enc, v)) + tail);
    KnownFieldDecides(dec, ValueField(enc, v), tail);
    ValueOfField(enc, dec, v);
  }

  /** The smallest witness of the excluded family: int64 -1. */
  lemma NegativeInt64IsMisread(enc: Utf8Encoder, dec: Utf8)
    requires Inverse(enc, dec)
    ensures ValueMessage(dec, WriteField(ValueField(enc, SInt64(-1)))) == Some(Int(TWO64 - 1))
  {
    var w := WriteField(ValueField(enc, SInt64(-1)));
    KnownFieldDecides(dec, ValueField(enc, SInt64(-1)), []);
    assert w + [] == w;
  }

  // ----- geometry -----

  /** What a geometry is drawn from (sections 4.3.4.2-4.3.4.4): a multipoint, an
      open line, and a ring whose closing point is left to ClosePath. */
  datatype Figure = Points(pts: seq<Pt>) | Line(pts: seq<Pt>) | Ring(pts: seq<Pt>) {
    function End(): Pt
      requires pts != []
    {
      pts[|pts| - 1]
    }
  }

  predicate Drawable(figures: seq<Figure>) {
    forall i :: 0 <= i < |figures| ==> figures[i].pts != []
  }

  function Dots(pts: seq<Pt>): Parts {
    if pts == [] then [] else [[pts[0]]] + Dots(pts[1..])
  }

  /** The parts a figure means: a part per point, the line, the closed ring. */
  function FigureParts(f: Figure): Parts {
    match f
    case Points(pts) => Dots(pts)
    case Line(pts) => [pts]
    case Ring(pts) => [if pts == [] then [] else pts + [pts[0]]]
  }

  function AllParts(figures: seq<Figure>): Parts {
    if figures == [] then [] else FigureParts(figures[0]) + AllParts(figures[1..])
  }

  /** Each point relative to the last. */
  function Deltas(x: int, y: int, pts: seq<Pt>): seq<nat>
    decreases |pts|
  {
    if pts == [] then []
    else [Unzig(pts[0].x - x), Unzig(pts[0].y - y)] + Deltas(pts[0].x, pts[0].y, pts[1..])
  }

  function MoveCommands(x: int, y: int, pts: seq<Pt>): seq<nat> {
    [8 * |pts| + 1] + Deltas(x, y, pts)
  }

  function LineCommands(x: int, y: int, pts: seq<Pt>): seq<nat> {
    [8 * |pts| + 2] + Deltas(x, y, pts)
  }

  const CLOSE_PATH: nat := 15

  /** A MoveTo to the first point, a LineTo with the others. */
  function PathCommands(x: int, y: int, pts: seq<Pt>): seq<nat>
    requires pts != []
  {
    MoveCommands(x, y, pts[..1]) + LineCommands(pts[0].x, pts[0].y, pts[1..])
  }

  function FigureCommands(x: int, y: int, f: Figure): seq<nat>
    requires f.pts != []
  {
    match f
    case Points(pts) => MoveCommands(x, y, pts)
    case Line(pts) => PathCommands(x, y, pts)
    case Ring(pts) => PathCommands(x, y, pts) + [CLOSE_PATH]
  }

  /** The cursor stays on the last point drawn; ClosePath does not move it. */
  function Commands(x: int, y: int, figures: seq<Figure>): seq<nat>
    requires Drawable(figures)
    decreases |figures|
  {
    if figures == [] then []
    else
      var end := figures[0].End();
      FigureCommands(x, y, figures[0]) + Commands(end.x, end.y, figures[1..])
  }

  lemma ZigzagRoundTrip(v: int)
    ensures Zigzag(Unzig(v)) == v
  {
  }

  /** The pen after drawing a line through `pts`. */
  function Drawn(pen: Pen, pts: seq<Pt>): Pen {
    if pts == [] then pen
    else Pen(pts[|pts| - 1].x, pts[|pts| - 1].y, pen.current + pts, pen.parts)
  }

  /** The pen after moving to each of `pts`. */
  function Moved(pen: Pen, pts: seq<Pt>): Pen
    decreases |pts|
  {
    if pts == [] then pen else Moved(Pen(pts[0].x, pts[0].y, [pts[0]], pen.Flush()), pts[1..])
  }

  lemma DeltasStep(x: int, y: int, pts: seq<Pt>, rest: seq<nat>)
    requires pts != []
    ensures var cmds := Deltas(x, y, pts) + rest;
            && |cmds| >= 2
            && x + Zigzag(cmds[0]) == pts[0].x && y + Zigzag(cmds[1]) == pts[0].y
            && cmds[2..] == Deltas(pts[0].x, pts[0].y, pts[1..]) + rest
  {
    ZigzagRoundTrip(pts[0].x - x);
    ZigzagRoundTrip(pts[0].y - y);
    var head, tail := [Unzig(pts[0].x - x), Unzig(pts[0].y - y)], Deltas(pts[0].x, pts[0].y, pts[1..]);
    assert (head + tail) + rest == head + (tail + rest);
  }

  lemma {:induction false} LineRoundTrip(pen: Pen, pts: seq<Pt>, rest: seq<nat>)
    ensures Draw(false, |pts|, pen, Deltas(pen.x, pen.y, pts) + rest) == Some((Drawn(pen, pts), rest))
    decreases |pts|
  {
    var cmds := Deltas(pen.x, pen.y, pts) + rest;
    if pts == [] {
      assert cmds == rest;
    } else {
      DeltasStep(pen.x, pen.y, pts, rest);
      var pen' := Pen(pts[0].x, pts[0].y, pen.current + [pts[0]], pen.parts);
      assert pen.LineTo(cmds[0], cmds[1]) == pen';
      LineRoundTrip(pen', pts[1..], rest);
      assert Drawn(pen', pts[1..]) == Drawn(pen, pts) by {
        assert pen'.current + pts[1..] == pen.current + pts;
      }
    }
  }

  lemma {:induction false} MoveRoundTrip(pen: Pen, pts: seq<Pt>, rest: seq<nat>)
    ensures Draw(true, |pts|, pen, Deltas(pen.x, pen.y, pts) + rest) == Some((Moved(pen, pts), rest))
    decreases |pts|
  {
    var cmds := Deltas(pen.x, pen.y, pts) + rest;
    if pts == [] {
      assert cmds == rest;
    } else {
      DeltasStep(pen.x, pen.y, pts, rest);
      var pen' := Pen(pts[0].x, pts[0].y, [pts[0]], pen.Flush());
      assert pen.MoveTo(cmds[0], cmds[1]) == pen';
      MoveRoundTrip(pen', pts[1..], rest);
    }
  }

  /** One drawing command on the stream. */
  lemma DrawCommand(move: bool, word: nat, count: nat, pen: Pen, deltas: seq<nat>, rest: seq<nat>, pen': Pen)
    requires word == 8 * count + if move then 1 else 2
    requires Draw(move, count, pen, deltas + rest) == Some((pen', rest))
    ensures Geometry(pen, ([word] + deltas) + rest) == Geometry(pen', rest)
  {
    var cmds := ([word] + deltas) + rest;
    assert cmds[1..] == deltas + rest;
    assert cmds[0] == word;
  }

  lemma MoveCommandsDraw(pen: Pen, pts: seq<Pt>, rest: seq<nat>)
    ensures Geometry(pen, MoveCommands(pen.x, pen.y, pts) + rest) == Geometry(Moved(pen, pts), rest)
  {
    MoveRoundTrip(pen, pts, rest);
    DrawCommand(true, 8 * |pts| + 1, |pts|, pen, Deltas(pen.x, pen.y, pts), rest, Moved(pen, pts));
  }

  lemma LineCommandsDraw(pen: Pen, pts: seq<Pt>, rest: seq<nat>)
    ensures Geometry(pen, LineCommands(pen.x, pen.y, pts) + rest) == Geometry(Drawn(pen, pts), rest)
  {
    LineRoundTrip(pen, pts, rest);
    DrawCommand(false, 8 * |pts| + 2, |pts|, pen, Deltas(pen.x, pen.y, pts), rest, Drawn(pen, pts));
  }

  /** The pen after a path from a first point through the others. */
  function Traced(pen: Pen, pts: seq<Pt>): Pen
    requires pts != []
  {
    Pen(pts[|pts| - 1].x, pts[|pts| - 1].y, pts, pen.Flush())
  }

  lemma PathRoundTrip(pen: Pen, pts: seq<Pt>, rest: seq<nat>)
    requires pts != []
    ensures Geometry(pen, PathCommands(pen.x, pen.y, pts) + rest) == Geometry(Traced(pen, pts), rest)
  {
    var p := pts[0];
    var move, line := MoveCommands(pen.x, pen.y, pts[..1]), LineCommands(p.x, p.y, pts[1..]);
    var moved := Pen(p.x, p.y, [p], pen.Flush());
    assert Moved(pen, pts[..1]) == moved by {
      assert pts[..1] == [p] && [p][1..] == [];
    }
    assert Drawn(moved, pts[1..]) == Traced(pen, pts) by {
      assert [p] + pts[1..] == pts;
    }
    assert (move + line) + rest == move + (line + rest);
    MoveCommandsDraw(pen, pts[..1], line + rest);
    LineCommandsDraw(moved, pts[1..], rest);
  }

  lemma ClosePathDraws(pen: Pen, rest: seq<nat>)
    ensures Geometry(pen, [CLOSE_PATH] + rest) == Geometry(pen.ClosePath(), rest)
  {
    assert ([CLOSE_PATH] + rest)[1..] == rest;
  }

  /** A path closed: its first point is drawn once more, and the cursor stays on the
      last one. */
  lemma RingRoundTrip(pen: Pen, pts: seq<Pt>, rest: seq<nat>)
    requires pts != []
    ensures var last := pts[|pts| - 1];
            Geometry(pen, (PathCommands(pen.x, pen.y, pts) + [CLOSE_PATH]) + rest)
            == Geometry(Pen(last.x, last.y, pts + [pts[0]], pen.Flush()), rest)
  {
    var path := PathCommands(pen.x, pen.y, pts);
    assert (path + [CLOSE_PATH]) + rest == path + ([CLOSE_PATH] + rest);
    PathRoundTrip(pen, pts, [CLOSE_PATH] + rest);
    ClosePathDraws(Traced(pen, pts), rest);
  }

  /** The pen after a whole figure. */
  function Inked(pen: Pen, f: Figure): Pen
    requires f.pts != []
  {
    match f
    case Points(pts) => Moved(pen, pts)
    case Line(pts) => Traced(pen, pts)
    case Ring(pts) => Traced(pen, pts).ClosePath()
  }

  lemma FigureRoundTrip(pen: Pen, f: Figure, rest: seq<nat>)
    requires f.pts != []
    ensures Geometry(pen, FigureCommands(pen.x, pen.y, f) + rest) == Geometry(Inked(pen, f), rest)
  {
    match f
    case Points(pts) => MoveCommandsDraw(pen, pts, rest);
    case Line(pts) => PathRoundTrip(pen, pts, rest);
    case Ring(pts) => RingRoundTrip(pen, pts, rest);
  }

  lemma {:induction false} MovedDots(pen: Pen, pts: seq<Pt>)
    requires pts != []
    ensures var end := Points(pts).End(); Moved(pen, pts).x == end.x && Moved(pen, pts).y == end.y
    ensures Moved(pen, pts).Flush() == pen.Flush() + Dots(pts)
    decreases |pts|
  {
    var pen' := Pen(pts[0].x, pts[0].y, [pts[0]], pen.Flush());
    assert Dots(pts) == [[pts[0]]] + Dots(pts[1..]);
    if |pts| == 1 {
      assert Moved(pen, pts) == pen';
      assert Dots(pts) == [[pts[0]]];
    } else {
      MovedDots(pen', pts[1..]);
      assert (pen.Flush() + [[pts[0]]]) + Dots(pts[1..]) == pen.Flush() + Dots(pts);
    }
  }

  /** A figure adds its parts to what was drawn and leaves the pen on its last
      point. */
  lemma InkedParts(pen: Pen, f: Figure)
    requires f.pts != []
    ensures Inked(pen, f).x == f.End().x && Inked(pen, f).y == f.End().y
    ensures Inked(pen, f).Flush() == pen.Flush() + FigureParts(f)
  {
    if f.Points? {
      MovedDots(pen, f.pts);
    }
  }

  lemma Regroup<T>(parts: seq<T>, first: seq<T>, others: seq<T>)
    ensures (parts + first) + others == parts + (first + others)
  {
  }

  lemma {:induction false} GeometryRoundTrip(pen: Pen, figures: seq<Figure>)
    requires Drawable(figures)
    ensures Geometry(pen, Commands(pen.x, pen.y, figures)) == Some(pen.Flush() + AllParts(figures))
    decreases |figures|
  {
    if figures == [] {
      assert pen.Flush() + AllParts(figures) == pen.Flush();
    } else {
      GeometryStep(pen, figures[0], figures[1..]);
      GeometryRoundTrip(Inked(pen, figures[0]), figures[1..]);
      Regroup(pen.Flush(), FigureParts(figures[0]), AllParts(figures[1..]));
    }
  }

  lemma GeometryStep(pen: Pen, f: Figure, tail: seq<Figure>)
    requires f.pts != [] && Drawable(tail)
    ensures var pen', end := Inked(pen, f), f.End();
            && Geometry(pen, FigureCommands(pen.x, pen.y, f) + Commands(end.x, end.y, tail))
               == Geometry(pen', Commands(pen'.x, pen'.y, tail))
            && pen'.Flush() == pen.Flush() + FigureParts(f)
  {
    InkedParts(pen, f);
    FigureRoundTrip(pen, f, Commands(f.End().x, f.End().y, tail));
  }

  // ----- what is encoded -----

  datatype SrcFeature = SrcFeature(props: seq<(string, SrcValue)>, gtype: nat, figures: seq<Figure>)

  datatype SrcLayer = SrcLayer(name: string, extent: nat, features: seq<SrcFeature>)

  function PropMap(props: seq<(string, SrcValue)>): map<string, Value> {
    if props == [] then map[]
    else
      var last := props[|props| - 1];
      PropMap(props[..|props| - 1])[last.0 := Meaning(last.1)]
  }

  function FeatureMeaning(f: SrcFeature): Feature {
    Feature(PropMap(f.props), Num(f.gtype), AllParts(f.figures))
  }

  function LayerMeaning(l: SrcLayer): Layer {
    Layer(Num(l.extent), seq(|l.features|, i requires 0 <= i < |l.features| => FeatureMeaning(l.features[i])))
  }

  ghost predicate DistinctKeys(props: seq<(string, SrcValue)>) {
    forall i, j :: 0 <= i < j < |props| ==> props[i].0 != props[j].0
  }

  lemma {:induction false} PropMapKeys(props: seq<(string, SrcValue)>, k: string)
    ensures k in PropMap(props) <==> exists i :: 0 <= i < |props| && props[i].0 == k
  {
    if props != [] {
      var n := |props| - 1;
      PropMapKeys(props[..n], k);
      if i :| 0 <= i < |props| && props[i].0 == k {
        assert i == n || props[..n][i].0 == k;
      }
    }
  }

  /** With distinct keys the dictionary holds every property and nothing else. */
  lemma {:induction false} PropMapIsExact(props: seq<(string, SrcValue)>)
    requires DistinctKeys(props)
    ensures |PropMap(props)| == |props|
    ensures forall i :: 0 <= i < |props| ==>
      props[i].0 in PropMap(props) && PropMap(props)[props[i].0] == Meaning(props[i].1)
  {
    if props != [] {
      var n := |props| - 1;
      var before := props[..n];
      PropMapIsExact(before);
      PropMapKeys(before, props[n].0);
      assert forall i :: 0 <= i < n ==> before[i] == props[i];
    }
  }

  // ----- what counts as an encoding -----

  /** A feature's field stream, with the packed lists its fields are cut from. */
  datatype FeatureWire = FeatureWire(fields: seq<Field>, tags: seq<seq<nat>>, cmds: seq<seq<nat>>)

  datatype LayerWire = LayerWire(fields: seq<Field>, keys: seq<string>, values: seq<SrcValue>,
                                 features: seq<FeatureWire>)

  datatype TileWire = TileWire(fields: seq<Field>, layers: seq<LayerWire>)

  predicate AllWritable(fs: seq<Field>) {
    forall f :: f in fs ==> Writable(f)
  }

  function Packed(chunks: seq<seq<nat>>): seq<Val> {
    seq(|chunks|, i requires 0 <= i < |chunks| => Bytes(Pack(chunks[i])))
  }

  function Strings(enc: Utf8Encoder, ss: seq<string>): seq<Val> {
    seq(|ss|, i requires 0 <= i < |ss| => Bytes(enc(ss[i])))
  }

  /** A value message: the value's field behind unknown ones, and anything after it. */
  ghost predicate IsValueMessage(enc: Utf8Encoder, v: SrcValue, val: Val, unknown: seq<Field>, tail: seq<byte>) {
    && (forall f :: f in unknown ==> Writable(f) && !(1 <= f.num <= 7))
    && InRange(v) && val == Bytes(Message(unknown) + (WriteField(ValueField(enc, v)) + tail))
  }

  ghost predicate EncodesValue(enc: Utf8Encoder, v: SrcValue, val: Val) {
    exists unknown, tail :: IsValueMessage(enc, v, val, unknown, tail)
  }

  ghost predicate EncodesValues(enc: Utf8Encoder, vs: seq<SrcValue>, vals: seq<Val>) {
    |vs| == |vals| && forall i :: 0 <= i < |vs| ==> EncodesValue(enc, vs[i], vals[i])
  }

  /** The plain encoding. */
  function Values(enc: Utf8Encoder, vs: seq<SrcValue>): seq<Val>
    requires forall v :: v in vs ==> InRange(v)
  {
    seq(|vs|, i requires 0 <= i < |vs| => Bytes(WriteField(ValueField(enc, vs[i]))))
  }

  ghost predicate TagsFor(keys: seq<string>, values: seq<SrcValue>, tags: seq<nat>, props: seq<(string, SrcValue)>) {
    && |tags| == 2 * |props|
    && forall i :: 0 <= i < |props| ==>
         && tags[2 * i] < |keys| && keys[tags[2 * i]] == props[i].0
         && tags[2 * i + 1] < |values| && values[tags[2 * i + 1]] == props[i].1
  }

  ghost predicate EncodesFeature(keys: seq<string>, values: seq<SrcValue>, w: FeatureWire, f: SrcFeature) {
    && AllWritable(w.fields)
    && Drawable(f.figures)
    && Project(w.fields, 2) == Packed(w.tags)
    && Project(w.fields, 4) == Packed(w.cmds)
    && Last(Project(w.fields, 3), Num(0)) == Num(f.gtype)
    && TagsFor(keys, values, Flatten(w.tags), f.props)
    && Flatten(w.cmds) == Commands(0, 0, f.figures)
  }

  ghost function FeatureRelation(keys: seq<string>, values: seq<SrcValue>): (FeatureWire, SrcFeature) -> bool {
    (w: FeatureWire, f: SrcFeature) => EncodesFeature(keys, values, w, f)
  }

  ghost predicate EncodesLayer(enc: Utf8Encoder, w: LayerWire, l: SrcLayer) {
    && AllWritable(w.fields)
    && (forall v :: v in w.values ==> InRange(v))
    && Project(w.fields, 1) == [Bytes(enc(l.name))]
    && Project(w.fields, 3) == Strings(enc, w.keys)
    && EncodesValues(enc, w.values, Project(w.fields, 4))
    && Last(Project(w.fields, 5), Num(DEFAULT_EXTENT)) == Num(l.extent)
    && AllPairs(FeatureRelation(w.keys, w.values), w.features, l.features)
    && |Project(w.fields, 2)| == |w.features|
    && forall i :: 0 <= i < |w.features| ==>
         AllWritable(w.features[i].fields) && Project(w.fields, 2)[i] == Bytes(Message(w.features[i].fields))
  }

  ghost predicate EncodesTile(enc: Utf8Encoder, w: TileWire, tile: seq<SrcLayer>) {
    && AllWritable(w.fields)
    && |Project(w.fields, 3)| == |w.layers| == |tile|
    && forall i :: 0 <= i < |tile| ==>
         EncodesLayer(enc, w.layers[i], tile[i]) && Project(w.fields, 3)[i] == Bytes(Message(w.layers[i].fields))
  }

  /** No negative int64, the one family the decoder misreads. */
  predicate Faithful(values: seq<SrcValue>) {
    forall v :: v in values ==> !(v.SInt64? && v.i < 0)
  }

  // ----- every encoding decodes to what it encodes -----

  /** A list each of whose values reads back is read back whole. */
  lemma {:induction false} ReadAllIs<T>(read: Val -> Option<T>, vals: seq<Val>, ts: seq<T>)
    requires |vals| == |ts|
    requires forall i :: 0 <= i < |vals| ==> read(vals[i]) == Some(ts[i])
    ensures ReadAll(read, vals) == Some(ts)
  {
    if vals != [] {
      var n := |vals| - 1;
      ReadAllIs(read, vals[..n], ts[..n]);
      assert ts == ts[..n] + [ts[n]];
    }
  }

  lemma PackedReads(chunks: seq<seq<nat>>)
    ensures ReadAll(AsPacked(), Packed(chunks)) == Some(chunks)
  {
    forall i | 0 <= i < |chunks| ensures AsPacked()(Packed(chunks)[i]) == Some(chunks[i]) {
      PackRoundTrip(chunks[i]);
    }
    ReadAllIs(AsPacked(), Packed(chunks), chunks);
  }

  function Meanings(vs: seq<SrcValue>): seq<Value> {
    seq(|vs|, i requires 0 <= i < |vs| => Meaning(vs[i]))
  }

  lemma ValueReads(enc: Utf8Encoder, dec: Utf8, v: SrcValue, val: Val)
    requires Inverse(enc, dec) && EncodesValue(enc, v, val) && !(v.SInt64? && v.i < 0)
    ensures AsValue(dec)(val) == Some(Meaning(v))
  {
    var unknown, tail :| IsValueMessage(enc, v, val, unknown, tail);
    ValueRoundTrip(enc, dec, v, unknown, tail);
  }

  lemma ValuesRead(enc: Utf8Encoder, dec: Utf8, vs: seq<SrcValue>, vals: seq<Val>)
    requires Inverse(enc, dec) && Faithful(vs) && EncodesValues(enc, vs, vals)
    ensures ReadAll(AsValue(dec), vals) == Some(Meanings(vs))
  {
    forall i | 0 <= i < |vs| ensures AsValue(dec)(vals[i]) == Some(Meanings(vs)[i]) {
      assert vs[i] in vs;
      ValueReads(enc, dec, vs[i], vals[i]);
    }
    ReadAllIs(AsValue(dec), vals, Meanings(vs));
  }

  lemma PlainValuesEncode(enc: Utf8Encoder, vs: seq<SrcValue>)
    requires forall v :: v in vs ==> InRange(v)
    ensures EncodesValues(enc, vs, Values(enc, vs))
  {
    forall i | 0 <= i < |vs| ensures EncodesValue(enc, vs[i], Values(enc, vs)[i]) {
      var w := WriteField(ValueField(enc, vs[i]));
      assert Message([]) + (w + []) == w;
      assert IsValueMessage(enc, vs[i], Values(enc, vs)[i], [], []);
    }
  }

  lemma {:induction false} PropsRead(keys: seq<string>, values: seq<SrcValue>, tags: seq<nat>,
                                     props: seq<(string, SrcValue)>, n: nat)
    requires TagsFor(keys, values, tags, props) && n <= |props|
    ensures Props(keys, Meanings(values), tags, n) == Some(PropMap(props[..n]))
  {
    if n > 0 {
      PropsRead(keys, values, tags, props, n - 1);
      assert props[..n][..n - 1] == props[..n - 1];
      assert tags[2 * (n - 1)] < |keys| && keys[tags[2 * (n - 1)]] == props[n - 1].0;
      assert 2 * (n - 1) == 2 * n - 2;
    }
  }

  /** A feature put together from what its three fields come to. */
  lemma FeatureFrom(keys: seq<string>, values: seq<Value>, fs: seq<Field>, tags: seq<seq<nat>>, cmds: seq<seq<nat>>,
                    props: map<string, Value>, parts: Parts)
    requires Collect(AsPacked(), fs, 2) == Some(tags) && Collect(AsPacked(), fs, 4) == Some(cmds)
    requires Props(keys, values, Flatten(tags), |Flatten(tags)| / 2) == Some(props)
    requires Geometry(FRESH_PEN, Flatten(cmds)) == Some(parts)
    ensures FeatureOf(keys, values, fs) == Some(Feature(props, Last(Project(fs, 3), Num(0)), parts))
  {
  }

  lemma TagsDecode(keys: seq<string>, values: seq<SrcValue>, tags: seq<nat>, props: seq<(string, SrcValue)>)
    requires TagsFor(keys, values, tags, props)
    ensures Props(keys, Meanings(values), tags, |tags| / 2) == Some(PropMap(props))
  {
    PropsRead(keys, values, tags, props, |props|);
    assert props[..|props|] == props;
  }

  lemma CommandsDecode(figures: seq<Figure>)
    requires Drawable(figures)
    ensures Geometry(FRESH_PEN, Commands(0, 0, figures)) == Some(AllParts(figures))
  {
    GeometryRoundTrip(FRESH_PEN, figures);
    assert [] + AllParts(figures) == AllParts(figures);
  }

  lemma FeatureFieldsDecode(keys: seq<string>, values: seq<SrcValue>, w: FeatureWire, f: SrcFeature)
    requires EncodesFeature(keys, values, w, f)
    ensures FeatureOf(keys, Meanings(values), w.fields) == Some(FeatureMeaning(f))
  {
    PackedReads(w.tags);
    PackedReads(w.cmds);
    TagsDecode(keys, values, Flatten(w.tags), f.props);
    CommandsDecode(f.figures);
    FeatureFrom(keys, Meanings(values), w.fields, w.tags, w.cmds, PropMap(f.props), AllParts(f.figures));
  }

  lemma FeatureDecodes(keys: seq<string>, values: seq<SrcValue>, w: FeatureWire, f: SrcFeature)
    requires EncodesFeature(keys, values, w, f)
    ensures FeatureMessage(keys, Meanings(values))(Bytes(Message(w.fields))) == Some(FeatureMeaning(f))
  {
    MessageRoundTrip(w.fields);
    FeatureFieldsDecode(keys, values, w, f);
  }

  lemma LayerPartsDecode(enc: Utf8Encoder, dec: Utf8, w: LayerWire, l: SrcLayer)
    requires Inverse(enc, dec) && EncodesLayer(enc, w, l) && Faithful(w.values)
    ensures PartsOf(dec, w.fields)
         == Some(LayerParts(Some(l.name), Num(l.extent), w.keys, Meanings(w.values), Project(w.fields, 2)))
  {
    assert Collect(AsStr(dec), w.fields, 1) == Some([l.name]) by {
      ReadAllIs(AsStr(dec), Project(w.fields, 1), [l.name]);
    }
    assert Collect(AsStr(dec), w.fields, 3) == Some(w.keys) by {
      ReadAllIs(AsStr(dec), Strings(enc, w.keys), w.keys);
    }
    assert Collect(AsValue(dec), w.fields, 4) == Some(Meanings(w.values)) by {
      ValuesRead(enc, dec, w.values, Project(w.fields, 4));
    }
  }

  lemma LayerDecodes(enc: Utf8Encoder, dec: Utf8, w: LayerWire, l: SrcLayer)
    requires Inverse(enc, dec) && EncodesLayer(enc, w, l) && Faithful(w.values)
    ensures LayerMessage(dec)(Bytes(Message(w.fields))) == Some((Some(l.name), LayerMeaning(l)))
  {
    MessageRoundTrip(w.fields);
    LayerPartsDecode(enc, dec, w, l);
    var read := FeatureMessage(w.keys, Meanings(w.values));
    forall i | 0 <= i < |l.features|
      ensures read(Project(w.fields, 2)[i]) == Some(LayerMeaning(l).features[i])
    {
      assert FeatureRelation(w.keys, w.values)(w.features[i], l.features[i]);
      FeatureDecodes(w.keys, w.values, w.features[i], l.features[i]);
    }
    ReadAllIs(read, Project(w.fields, 2), LayerMeaning(l).features);
  }

  /** No message of supported wire types looks gzipped: its first byte would
      have to announce wire type 7. */
  lemma NeverLooksGzipped(fs: seq<Field>)
    requires AllWritable(fs)
    ensures !(GZIP_MAGIC <= Message(fs))
  {
    if fs != [] {
      var key := 8 * fs[0].num + fs[0].wire;
      assert fs[0] in fs && key % 8 == fs[0].wire;
      assert Varint(key) != [] && Message(fs)[0] == Varint(key)[0];
    }
  }

  ghost predicate DistinctNames(tile: seq<SrcLayer>) {
    forall i, j :: 0 <= i < j < |tile| ==> tile[i].name != tile[j].name
  }

  lemma {:induction false} NamedKeys(layers: seq<(Option<string>, Layer)>, s: string)
    ensures s in Named(layers) <==> exists i :: 0 <= i < |layers| && layers[i].0 == Some(s)
  {
    if layers != [] {
      var n := |layers| - 1;
      NamedKeys(layers[..n], s);
      if i :| 0 <= i < |layers| && layers[i].0 == Some(s) {
        assert i == n || layers[..n][i].0 == Some(s);
      }
    }
  }

  lemma {:induction false} NamedIsExact(layers: seq<(Option<string>, Layer)>, i: nat, s: string)
    requires i < |layers| && layers[i].0 == Some(s)
    requires forall j :: i < j < |layers| ==> layers[j].0 != Some(s)
    ensures s in Named(layers) && Named(layers)[s] == layers[i].1
  {
    if i < |layers| - 1 {
      NamedIsExact(layers[..|layers| - 1], i, s);
      assert layers[|layers| - 1].0 != Some(s);
    }
  }

  function Decoded(tile: seq<SrcLayer>): seq<(Option<string>, Layer)> {
    seq(|tile|, i requires 0 <= i < |tile| => (Some(tile[i].name), LayerMeaning(tile[i])))
  }

  lemma TileDecodes(enc: Utf8Encoder, dec: Utf8, gunzip: Gunzip, w: TileWire, tile: seq<SrcLayer>)
    requires Inverse(enc, dec) && EncodesTile(enc, w, tile)
    requires forall i :: 0 <= i < |w.layers| ==> Faithful(w.layers[i].values)
    ensures Tile(dec, gunzip, Message(w.fields)) == Some(Named(Decoded(tile)))
  {
    NeverLooksGzipped(w.fields);
    MessageRoundTrip(w.fields);
    forall i | 0 <= i < |tile|
      ensures LayerMessage(dec)(Project(w.fields, 3)[i]) == Some(Decoded(tile)[i])
    {
      LayerDecodes(enc, dec, w.layers[i], tile[i]);
    }
    ReadAllIs(LayerMessage(dec), Project(w.fields, 3), Decoded(tile));
  }

  /** Distinctly named layers end up as the dictionary's entries, and no others. */
  lemma NamesDecoded(tile: seq<SrcLayer>)
    requires DistinctNames(tile)
    ensures forall s :: s in Named(Decoded(tile)) <==> exists i :: 0 <= i < |tile| && tile[i].name == s
    ensures forall i :: 0 <= i < |tile| ==>
      tile[i].name in Named(Decoded(tile)) && Named(Decoded(tile))[tile[i].name] == LayerMeaning(tile[i])
  {
    var layers := Decoded(tile);
    forall s ensures s in Named(layers) <==> exists i :: 0 <= i < |tile| && tile[i].name == s {
      NamedKeys(layers, s);
      if i :| 0 <= i < |tile| && tile[i].name == s {
        assert layers[i].0 == Some(s);
      }
    }
    forall i | 0 <= i < |tile|
      ensures tile[i].name in Named(layers) && Named(layers)[tile[i].name] == LayerMeaning(tile[i])
    {
      NamedIsExact(layers, i, tile[i].name);
    }
  }

  /** Decoding inverts every encoding of a whole tile: no layer is lost, renamed
      or invented, and each is the one that was encoded. */
  lemma DecodeInvertsEncode(enc: Utf8Encoder, dec: Utf8, gunzip: Gunzip, w: TileWire, tile: seq<SrcLayer>)
    requires Inverse(enc, dec) && EncodesTile(enc, w, tile) && DistinctNames(tile)
    requires forall i :: 0 <= i < |w.layers| ==> Faithful(w.layers[i].values)
    ensures var r := Tile(dec, gunzip, Message(w.fields));
            && r.Some?
            && (forall s :: s in r.value <==> exists i :: 0 <= i < |tile| && tile[i].name == s)
            && forall i :: 0 <= i < |tile| ==>
                 tile[i].name in r.value && r.value[tile[i].name] == LayerMeaning(tile[i])
  {
    TileDecodes(enc, dec, gunzip, w, tile);
    NamesDecoded(tile);
  }

  // ----- field order and unknown fields do not matter, on any message -----

  lemma {:induction false} ProjectAppend(fs: seq<Field>, gs: seq<Field>, num: nat)
    ensures Project(fs + gs, num) == Project(fs, num) + Project(gs, num)
    decreases |gs|
  {
    if gs == [] {
      assert fs + gs == fs;
    } else {
      var n := |gs| - 1;
      assert (fs + gs)[..|fs + gs| - 1] == fs + gs[..n];
      ProjectAppend(fs, gs[..n], num);
    }
  }

  /** Exchanging neighbours with different numbers keeps every projection. */
  lemma SwapKeepsProjections(before: seq<Field>, f: Field, g: Field, after: seq<Field>, num: nat)
    requires f.num != g.num
    ensures Project(before + [f, g] + after, num) == Project(before + [g, f] + after, num)
  {
    assert [f, g][..1] == [f] && [g, f][..1] == [g] && [f][..0] == [] && [g][..0] == [];
    ProjectAppend(before + [f, g], after, num);
    ProjectAppend(before + [g, f], after, num);
    ProjectAppend(before, [f, g], num);
    ProjectAppend(before, [g, f], num);
    assert Project([f, g], num) == Project([g, f], num);
  }

  /** A field of another number adds nothing to a projection. */
  lemma UnknownKeepsProjections(before: seq<Field>, f: Field, after: seq<Field>, num: nat)
    requires f.num != num
    ensures Project(before + [f] + after, num) == Project(before + after, num)
  {
    assert [f][..0] == [];
    ProjectAppend(before + [f], after, num);
    ProjectAppend(before, [f], num);
    ProjectAppend(before, after, num);
    assert Project([f], num) == [];
  }

  ghost predicate SameUnder<T>(read: Val -> Option<T>, us: seq<Val>, vs: seq<Val>) {
    |us| == |vs| && forall i :: 0 <= i < |us| ==> read(us[i]) == read(vs[i])
  }

  lemma {:induction false} ReadAllSame<T>(read: Val -> Option<T>, us: seq<Val>, vs: seq<Val>)
    requires SameUnder(read, us, vs)
    ensures ReadAll(read, us) == ReadAll(read, vs)
  {
    if us != [] {
      ReadAllSame(read, us[..|us| - 1], vs[..|vs| - 1]);
    }
  }

  lemma FeatureOrderIrrelevant(keys: seq<string>, values: seq<Value>, fs: seq<Field>, gs: seq<Field>)
    requires AllWritable(fs) && AllWritable(gs)
    requires forall num :: num in {2, 3, 4} ==> Project(fs, num) == Project(gs, num)
    ensures FeatureMessage(keys, values)(Bytes(Message(fs))) == FeatureMessage(keys, values)(Bytes(Message(gs)))
  {
    MessageRoundTrip(fs);
    MessageRoundTrip(gs);
    assert FeatureOf(keys, values, fs) == FeatureOf(keys, values, gs) by {
      assert Project(fs, 2) == Project(gs, 2) && Project(fs, 3) == Project(gs, 3) && Project(fs, 4) == Project(gs, 4);
    }
  }

  lemma PartsOrder(dec: Utf8, fs: seq<Field>, gs: seq<Field>)
    requires forall num :: num in {1, 3, 4, 5} ==> Project(fs, num) == Project(gs, num)
    ensures PartsOf(dec, fs).None? <==> PartsOf(dec, gs).None?
    ensures PartsOf(dec, fs).Some? ==> PartsOf(dec, gs).value == PartsOf(dec, fs).value.(features := Project(gs, 2))
    ensures PartsOf(dec, fs).Some? ==> PartsOf(dec, fs).value.features == Project(fs, 2)
  {
    assert Project(fs, 1) == Project(gs, 1) && Project(fs, 3) == Project(gs, 3);
    assert Project(fs, 4) == Project(gs, 4) && Project(fs, 5) == Project(gs, 5);
  }

  lemma LayerAlike(dec: Utf8, fs: seq<Field>, gs: seq<Field>)
    requires forall num :: num in {1, 3, 4, 5} ==> Project(fs, num) == Project(gs, num)
    requires forall keys, values :: SameUnder(FeatureMessage(keys, values), Project(fs, 2), Project(gs, 2))
    ensures LayerOf(dec, fs) == LayerOf(dec, gs)
  {
    PartsOrder(dec, fs, gs);
    var p := PartsOf(dec, fs);
    if p.Some? {
      ReadAllSame(FeatureMessage(p.value.keys, p.value.values), Project(fs, 2), Project(gs, 2));
    }
  }

  /** Rearranging a layer's fields, and inside it each feature's fields. */
  lemma LayerOrderIrrelevant(dec: Utf8, fs: seq<Field>, gs: seq<Field>)
    requires AllWritable(fs) && AllWritable(gs)
    requires forall num :: num in {1, 3, 4, 5} ==> Project(fs, num) == Project(gs, num)
    requires forall keys, values :: SameUnder(FeatureMessage(keys, values), Project(fs, 2), Project(gs, 2))
    ensures LayerMessage(dec)(Bytes(Message(fs))) == LayerMessage(dec)(Bytes(Message(gs)))
  {
    MessageRoundTrip(fs);
    MessageRoundTrip(gs);
    LayerAlike(dec, fs, gs);
  }

  /** A tile decodes alike when its layers do. */
  lemma TileOrderIrrelevant(dec: Utf8, gunzip: Gunzip, fs: seq<Field>, gs: seq<Field>)
    requires AllWritable(fs) && AllWritable(gs)
    requires SameUnder(LayerMessage(dec), Project(fs, 3), Project(gs, 3))
    ensures Tile(dec, gunzip, Message(fs)) == Tile(dec, gunzip, Message(gs))
  {
    NeverLooksGzipped(fs);
    NeverLooksGzipped(gs);
    MessageRoundTrip(fs);
    MessageRoundTrip(gs);
    ReadAllSame(LayerMessage(dec), Project(fs, 3), Project(gs, 3));
  }
}
