/**
 The protobuf wire format as the tile decoder reads it: base-128 varints, the
 field stream of one message, and packed varint lists. Each loop of the decoder
 is a method proved equal to a function on the bytes that remain; the encoders
 are the specification those functions are inverted against.
 */
module Wire {
  import opened Prelude

  type byte = b: int | 0 <= b < 256

  /** What a field carries: a number (wire type 0) or raw bytes (1, 2, 5). */
  datatype Val = Num(n: nat) | Bytes(b: seq<byte>)

  datatype Field = Field(num: nat, wire: nat, val: Val)

  // ----- decoding, on the bytes that remain -----

  /** Python's buf[pos:], which is empty past the end. */
  function Tail(buf: seq<byte>, pos: nat): (r: seq<byte>) {
    if pos <= |buf| then buf[pos..] else []
  }

  /** Python's buf[:n], which is short when the buffer is. */
  function Clip(buf: seq<byte>, n: nat): (r: seq<byte>) {
    if n <= |buf| then buf[..n] else buf
  }

  function TakeVarint(buf: seq<byte>): (r: Option<(nat, seq<byte>)>)
    ensures r.Some? ==> |r.value.1| < |buf|
  {
    if buf == [] then None
    else if buf[0] < 128 then Some((buf[0], buf[1..]))
    else
      match TakeVarint(buf[1..])
      case None => None
      case Some((v, rest)) => Some((buf[0] - 128 + 128 * v, rest))
  }

  function TakePayload(wire: nat, buf: seq<byte>): (r: Option<(Val, seq<byte>)>)
    ensures r.Some? ==> |r.value.1| <= |buf|
  {
    match wire
    case 0 => (
      match TakeVarint(buf)
      case None => None
      case Some((v, rest)) => Some((Num(v), rest)))
    case 1 => Some((Bytes(Clip(buf, 8)), Tail(buf, 8)))
    case 2 => (
      match TakeVarint(buf)
      case None => None
      case Some((n, rest)) => Some((Bytes(Clip(rest, n)), Tail(rest, n))))
    case 5 => Some((Bytes(Clip(buf, 4)), Tail(buf, 4)))
    case _ => None
  }

  function TakeField(buf: seq<byte>): (r: Option<(Field, seq<byte>)>)
    ensures r.Some? ==> |r.value.1| < |buf|
  {
    match TakeVarint(buf)
    case None => None
    case Some((key, rest)) =>
      match TakePayload(key % 8, rest)
      case None => None
      case Some((v, rest')) => Some((Field(key / 8, key % 8, v), rest'))
  }

  /** All fields of one message, or None where reading it raises. */
  function Fields(buf: seq<byte>): Option<seq<Field>>
    decreases |buf|
  {
    if buf == [] then Some([])
    else
      match TakeField(buf)
      case None => None
      case Some((f, rest)) =>
        match Fields(rest)
        case None => None
        case Some(fs) => Some([f] + fs)
  }

  /** A packed list of varints. */
  function Unpack(buf: seq<byte>): Option<seq<nat>>
    decreases |buf|
  {
    if buf == [] then Some([])
    else
      match TakeVarint(buf)
      case None => None
      case Some((v, rest)) =>
        match Unpack(rest)
        case None => None
        case Some(vs) => Some([v] + vs)
  }

  // ----- the decoder's loops -----

  /** `low` with `group` put above it; the groups of a varint occupy disjoint
      bits, so the source's `|=` of a shifted group is this weighted sum. */
  function Join(low: nat, weight: nat, group: nat): nat {
    low + weight * group
  }

  /** Where a varint whose low groups came to `low` ends up once `high` is read. */
  ghost function Resume(low: nat, weight: nat, high: Option<(nat, seq<byte>)>): Option<(nat, seq<byte>)> {
    match high
    case None => None
    case Some((v, rest)) => Some((Join(low, weight, v), rest))
  }

  /** One turn of the loop: the group at `pos` either ends the varint or joins
      the low groups. */
  lemma ResumeStep(buf: seq<byte>, pos: nat, low: nat, weight: nat)
    requires pos < |buf|
    ensures buf[pos] < 128 ==>
      Resume(low, weight, TakeVarint(Tail(buf, pos))) == Some((Join(low, weight, buf[pos]), Tail(buf, pos + 1)))
    ensures buf[pos] >= 128 ==>
      Resume(low, weight, TakeVarint(Tail(buf, pos)))
      == Resume(Join(low, weight, buf[pos] - 128), 128 * weight, TakeVarint(Tail(buf, pos + 1)))
  {
    assert Tail(buf, pos)[1..] == Tail(buf, pos + 1);
    var deeper := TakeVarint(Tail(buf, pos + 1));
    if deeper.Some? && buf[pos] >= 128 {
      var v, b: nat := deeper.value.0, buf[pos] - 128;
      assert weight * (b + 128 * v) == weight * b + (128 * weight) * v;
    }
  }

  lemma TailStep(buf: seq<byte>, pos: nat, n: nat)
    ensures Tail(Tail(buf, pos), n) == Tail(buf, pos + n)
  {
  }

  /** The value at `start` and the position after it. */
  method ReadVarint(buf: seq<byte>, start: nat) returns (r: Option<(nat, nat)>)
    ensures r.None? <==> TakeVarint(Tail(buf, start)).None?
    ensures r.Some? ==> start < r.value.1 <= |buf|
                        && TakeVarint(Tail(buf, start)) == Some((r.value.0, Tail(buf, r.value.1)))
  {
    var pos: nat, result: nat, weight: nat := start, 0, 1;
    ghost var whole := TakeVarint(Tail(buf, start));
    while true
      invariant start <= pos
      invariant whole == Resume(result, weight, TakeVarint(Tail(buf, pos)))
      decreases |buf| - pos
    {
      if pos >= |buf| {
        return None;
      }
      var b := buf[pos];
      ResumeStep(buf, pos, result, weight);
      if b < 128 {
        return Some((Join(result, weight, b), pos + 1));
      }
      result, weight, pos := Join(result, weight, b - 128), 128 * weight, pos + 1;
    }
  }

  /** The branch on the wire type: the value and the position after it, which
      for a clipped slice lies past the end. */
  method ReadPayload(wire: nat, buf: seq<byte>, start: nat) returns (r: Option<(Val, nat)>)
    requires start <= |buf|
    ensures r.None? <==> TakePayload(wire, Tail(buf, start)).None?
    ensures r.Some? ==> start <= r.value.1
                        && TakePayload(wire, Tail(buf, start)) == Some((r.value.0, Tail(buf, r.value.1)))
  {
    if wire == 0 {
      var v := ReadVarint(buf, start);
      r := if v == None then None else Some((Num(v.value.0), v.value.1));
    } else if wire == 1 {
      TailStep(buf, start, 8);
      r := Some((Bytes(Clip(Tail(buf, start), 8)), start + 8));
    } else if wire == 2 {
      var n := ReadVarint(buf, start);
      if n == None {
        return None;
      }
      TailStep(buf, n.value.1, n.value.0);
      r := Some((Bytes(Clip(Tail(buf, n.value.1), n.value.0)), n.value.1 + n.value.0));
    } else if wire == 5 {
      TailStep(buf, start, 4);
      r := Some((Bytes(Clip(Tail(buf, start), 4)), start + 4));
    } else {
      r := None;
    }
  }

  /** `done` followed by the rest of a list, if reading the rest succeeds. */
  ghost function After<T>(done: seq<T>, rest: Option<seq<T>>): Option<seq<T>> {
    match rest
    case None => None
    case Some(ts) => Some(done + ts)
  }

  lemma AfterNil<T>(rest: Option<seq<T>>)
    ensures After([], rest) == rest
  {
    if rest.Some? {
      assert [] + rest.value == rest.value;
    }
  }

  lemma AfterSnoc<T>(done: seq<T>, t: T, rest: Option<seq<T>>)
    ensures After(done + [t], rest) == After(done, After([t], rest))
  {
    if rest.Some? {
      assert (done + [t]) + rest.value == done + ([t] + rest.value);
    }
  }

  method ReadFields(buf: seq<byte>) returns (r: Option<seq<Field>>)
    ensures r == Fields(buf)
  {
    var pos, fields := 0, [];
    AfterNil(Fields(buf));
    while pos < |buf|
      invariant After(fields, Fields(Tail(buf, pos))) == Fields(buf)
      decreases |buf| - pos
    {
      var key := ReadVarint(buf, pos);
      if key == None {
        return None;
      }
      var v := ReadPayload(key.value.0 % 8, buf, key.value.1);
      if v == None {
        return None;
      }
      var f := Field(key.value.0 / 8, key.value.0 % 8, v.value.0);
      AfterSnoc(fields, f, Fields(Tail(buf, v.value.1)));
      fields, pos := fields + [f], v.value.1;
    }
    assert Tail(buf, pos) == [];
    assert fields + [] == fields;
    return Some(fields);
  }

  method ReadPacked(buf: seq<byte>) returns (r: Option<seq<nat>>)
    ensures r == Unpack(buf)
  {
    var pos, values := 0, [];
    AfterNil(Unpack(buf));
    while pos < |buf|
      invariant After(values, Unpack(Tail(buf, pos))) == Unpack(buf)
      decreases |buf| - pos
    {
      var v := ReadVarint(buf, pos);
      if v == None {
        return None;
      }
      AfterSnoc(values, v.value.0, Unpack(Tail(buf, v.value.1)));
      values, pos := values + [v.value.0], v.value.1;
    }
    assert Tail(buf, pos) == [];
    assert values + [] == values;
    return Some(values);
  }

  // ----- encoding: the format the functions above invert -----

  function Varint(n: nat): seq<byte> {
    if n < 128 then [n] else [128 + n % 128] + Varint(n / 128)
  }

  function Pack(vs: seq<nat>): seq<byte> {
    if vs == [] then [] else Varint(vs[0]) + Pack(vs[1..])
  }

  predicate Writable(f: Field) {
    match f.wire
    case 0 => f.val.Num?
    case 1 => f.val.Bytes? && |f.val.b| == 8
    case 2 => f.val.Bytes?
    case 5 => f.val.Bytes? && |f.val.b| == 4
    case _ => false
  }

  function WritePayload(f: Field): seq<byte>
    requires Writable(f)
  {
    if f.wire == 0 then Varint(f.val.n)
    else if f.wire == 2 then Varint(|f.val.b|) + f.val.b
    else f.val.b
  }

  function WriteField(f: Field): seq<byte>
    requires Writable(f)
  {
    Varint(8 * f.num + f.wire) + WritePayload(f)
  }

  function Message(fs: seq<Field>): seq<byte>
    requires forall f :: f in fs ==> Writable(f)
  {
    if fs == [] then [] else WriteField(fs[0]) + Message(fs[1..])
  }

  // ----- round trips -----

  lemma {:induction false} VarintRoundTrip(n: nat, rest: seq<byte>)
    ensures TakeVarint(Varint(n) + rest) == Some((n, rest))
    decreases n
  {
    if n < 128 {
      assert ([n as byte] + rest)[1..] == rest;
    } else {
      VarintRoundTrip(n / 128, rest);
      assert Varint(n) + rest == [(128 + n % 128) as byte] + (Varint(n / 128) + rest);
    }
  }

  lemma {:induction false} PackRoundTrip(vs: seq<nat>)
    ensures Unpack(Pack(vs)) == Some(vs)
  {
    if vs != [] {
      var rest := Pack(vs[1..]);
      VarintRoundTrip(vs[0], rest);
      PackRoundTrip(vs[1..]);
      assert Unpack(Varint(vs[0]) + rest) == Some([vs[0]] + vs[1..]);
      assert vs == [vs[0]] + vs[1..];
    }
  }

  lemma PayloadRoundTrip(f: Field, rest: seq<byte>)
    requires Writable(f)
    ensures TakePayload(f.wire, WritePayload(f) + rest) == Some((f.val, rest))
  {
    if f.wire == 0 {
      VarintRoundTrip(f.val.n, rest);
    } else if f.wire == 2 {
      assert WritePayload(f) + rest == Varint(|f.val.b|) + (f.val.b + rest);
      VarintRoundTrip(|f.val.b|, f.val.b + rest);
    }
  }

  lemma KeyRoundTrip(key: nat, payload: seq<byte>, rest: seq<byte>)
    ensures TakeVarint(Varint(key) + payload + rest) == Some((key, payload + rest))
    ensures Varint(key) + payload != []
  {
    Assoc(Varint(key), payload, rest);
    VarintRoundTrip(key, payload + rest);
  }

  lemma KeyParts(num: nat, wire: nat)
    requires wire < 8
    ensures (8 * num + wire) / 8 == num && (8 * num + wire) % 8 == wire
  {
  }

  lemma KeyThenPayload(buf: seq<byte>, f: Field, body: seq<byte>, rest: seq<byte>)
    requires f.wire < 8 && TakeVarint(buf) == Some((8 * f.num + f.wire, body))
    requires TakePayload(f.wire, body) == Some((f.val, rest))
    ensures TakeField(buf) == Some((f, rest))
  {
    KeyParts(f.num, f.wire);
  }

  lemma FieldRoundTrip(f: Field, rest: seq<byte>)
    requires Writable(f)
    ensures TakeField(WriteField(f) + rest) == Some((f, rest))
    ensures WriteField(f) != []
  {
    KeyRoundTrip(8 * f.num + f.wire, WritePayload(f), rest);
    PayloadRoundTrip(f, rest);
    KeyThenPayload(WriteField(f) + rest, f, WritePayload(f) + rest, rest);
  }

  lemma {:induction false} MessageRoundTrip(fs: seq<Field>)
    requires forall f :: f in fs ==> Writable(f)
    ensures Fields(Message(fs)) == Some(fs)
  {
    if fs != [] {
      FieldRoundTrip(fs[0], Message(fs[1..]));
      MessageRoundTrip(fs[1..]);
      assert fs == [fs[0]] + fs[1..];
    }
  }
}
