/** Writing a tree of fields into one growing buffer, where the length of a sub-message is filled in when it closes. */
module ProtobufWriter {
  import opened Varints
  import opened Messages

  class Buffer {
    var data: seq<Byte>

    constructor ()
      ensures data == []
    {
      data := [];
    }

    method WriteVarint(value: nat)
      modifies this
      ensures data == old(data) + Varint(value)
    {
      var v := value;
      ghost var done: seq<Byte> := [];
      while v >= 128
        invariant data == old(data) + done
        invariant done + Varint(v) == Varint(value)
      {
        data := data + [v % 128 + 128];
        done := done + [v % 128 + 128];
        v := v / 128;
      }
      data := data + [v];
      assert done + [v] == Varint(value);
    }

    /** Overwrites exactly `n` bytes, beginning at `at`. */
    method WriteRedundantVarint(value: nat, n: Width, at: nat)
      requires at + n <= |data|
      modifies this
      ensures data == old(data)[..at] + Redundant(value, n) + old(data)[at + n..]
    {
      ghost var whole := Redundant(value, n);
      var v := value;
      var i := 0;
      while i < n - 1
        invariant i <= n - 1 && |data| == |old(data)|
        invariant forall j :: 0 <= j < |data| ==> data[j] == if at <= j < at + i then whole[j - at] else old(data)[j]
        invariant whole[i..] == Redundant(v, n - i)
      {
        assert whole[i] == whole[i..][0] && whole[i + 1..] == whole[i..][1..];
        data := data[at + i := v % 128 + 128];
        v := v / 128;
        i := i + 1;
      }
      assert whole[i] == whole[i..][0];
      data := data[at + i := v % 128];
    }

    method WriteFixed(value: nat, n: nat)
      modifies this
      ensures data == old(data) + Fixed(value, n)
    {
      var v := value;
      ghost var done: seq<Byte> := [];
      for i := 0 to n
        invariant data == old(data) + done
        invariant done + Fixed(v, n - i) == Fixed(value, n)
      {
        data := data + [v % 256];
        done := done + [v % 256];
        v := v / 256;
      }
    }

    method WriteDelimited(chars: seq<Byte>)
      modifies this
      ensures data == old(data) + Delimited(chars)
    {
      WriteVarint(|chars| % TWO32);
      data := data + chars;
    }
  }

  /** A sub-message that is open: its length is written over the reserved bytes when it closes. */
  class SubMessage {
    const buffer: Buffer
    const width: Width
    const start: nat

    constructor (id: nat, buffer: Buffer, width: Width)
      modifies buffer
      ensures this.buffer == buffer && this.width == width
      ensures start == |old(buffer.data)| + |Varint(Key(id, 2))|
      ensures |buffer.data| == start + width
      ensures buffer.data[..start] == old(buffer.data) + Varint(Key(id, 2))
    {
      this.buffer, this.width := buffer, width;
      buffer.WriteVarint(Key(id, 2));
      start := |buffer.data|;
      buffer.data := buffer.data + seq(width, _ => 0);
    }

    method Close()
      requires start + width <= |buffer.data|
      modifies buffer
      ensures var size := |old(buffer.data)| - start - width;
              buffer.data ==
              old(buffer.data)[..start] + Redundant(size % TWO32, width) + old(buffer.data)[start + width..]
    {
      var size := (|buffer.data| - start - width) % TWO32;
      buffer.WriteRedundantVarint(size, width, start);
    }
  }

  lemma {:induction false} Joins(
    before: seq<Byte>, key: seq<Byte>, reserved: seq<Byte>, body: seq<Byte>, size: seq<Byte>)
    requires |size| == |reserved|
    ensures var all := before + key + reserved + body;
            var start := |before| + |key|;
            && all[start + |reserved|..] == body && |all| - start - |reserved| == |body|
            && all[..start] + size + all[start + |reserved|..] == before + (key + (size + body))
  {
    var all := before + key + reserved + body;
    assert all[..|before| + |key|] == before + key;
    assert all[|before| + |key| + |reserved|..] == body;
  }

  method WriteSub(id: nat, width: Width, body: Message, buffer: Buffer)
    modifies buffer
    ensures buffer.data == old(buffer.data) + EncodeField(Sub(id, width, body))
    decreases body, 1
  {
    var sub := new SubMessage(id, buffer, width);
    ghost var reserved := buffer.data[sub.start..];
    assert buffer.data == old(buffer.data) + Varint(Key(id, 2)) + reserved;
    WriteMessage(body, buffer);
    Joins(old(buffer.data), Varint(Key(id, 2)), reserved, Encode(body), Redundant(|Encode(body)| % TWO32, width));
    sub.Close();
  }

  /** Writes one field after everything that is in the buffer. */
  method WriteField(f: Field, buffer: Buffer)
    modifies buffer
    ensures buffer.data == old(buffer.data) + EncodeField(f)
    decreases f, 1
  {
    match f
    case Sub(id, width, body) =>
      WriteSub(id, width, body, buffer);
    case _ =>
      buffer.WriteVarint(Key(f.id, FieldType(f)));
      WriteValue(f, buffer);
  }

  method WriteValue(f: Field, buffer: Buffer)
    requires !f.Sub?
    modifies buffer
    ensures buffer.data == old(buffer.data) + EncodeValue(f)
  {
    match f
    case UInt64(_, n) => buffer.WriteVarint(n);
    case Int64(_, v) => buffer.WriteVarint(v % TWO64);
    case Fixed64(_, n) => buffer.WriteFixed(n, 8);
    case UInt32(_, n) => buffer.WriteVarint(n);
    case Int32(_, v) => buffer.WriteVarint(v % TWO32);
    case Text(_, chars) => buffer.WriteDelimited(chars);
  }

  /** The fields one after another, sub-messages opened and closed in nested scopes. */
  method WriteMessage(m: Message, buffer: Buffer)
    modifies buffer
    ensures buffer.data == old(buffer.data) + Encode(m)
    decreases m, 0
  {
    match m
    case End =>
    case More(head, tail) =>
      WriteField(head, buffer);
      WriteMessage(tail, buffer);
  }
}
