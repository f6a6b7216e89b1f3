/** The message buffers: MsgNode with its two subclasses RecvNode and SendNode, whose only own field
    is the message id. */
module MsgNodes {
  import opened Codec

  /** memcpy from a value; every copy of the servers is an instance, so each one is in bounds. */
  method Memcpy(dst: array<Byte>, at: nat, src: seq<Byte>)
    requires at + |src| <= dst.Length
    modifies dst
    ensures dst[..at] == old(dst[..at])
    ensures dst[at..at + |src|] == src
    ensures forall i | at + |src| <= i < dst.Length :: dst[i] == old(dst[i])
    ensures dst[at + |src|..] == old(dst[at + |src|..])
  {
    forall i | 0 <= i < |src| {
      dst[at + i] := src[i];
    }
  }

  method Memset(dst: array<Byte>, n: nat)
    requires n <= dst.Length
    modifies dst
    ensures forall i | 0 <= i < n :: dst[i] == 0
    ensures dst[n..] == old(dst[n..])
  {
    forall i | 0 <= i < n {
      dst[i] := 0;
    }
  }

  class MsgNode {
    const data: array<Byte>
    const totalLen: nat
    const id: Short
    var curLen: nat

    ghost predicate Valid()
      reads this
    {
      data.Length == totalLen + 1 && curLen <= totalLen
    }

    /** The bytes received into the node so far. */
    ghost function Filled(): seq<Byte>
      requires Valid()
      reads this, data
    {
      data[..curLen]
    }

    /** MsgNode(int), and RecvNode when an id comes with it. */
    constructor ForReceiving(totalLen: nat, id: Short)
      ensures Valid() && fresh(data) && curLen == 0
      ensures this.totalLen == totalLen && this.id == id
      ensures forall i | 0 <= i <= totalLen :: data[i] == 0
    {
      this.data := new Byte[totalLen + 1](_ => 0);
      this.totalLen, this.id, this.curLen := totalLen, id, 0;
    }

    /** SendNode, and the encoding constructor of the 2-byte servers: id, length and body are copied
        one behind the other. */
    constructor ForSending(fmt: Format, f: Frame)
      ensures Valid() && fresh(data) && curLen == 0
      ensures totalLen == fmt.HeadLen() + |f.body| && id == f.id
      ensures data[..totalLen] == Encode(fmt, f) && data[totalLen] == 0
    {
      var total := fmt.HeadLen() + |f.body|;
      var bytes := new Byte[total + 1](_ => 0);
      var at := 0;
      if fmt.Tlv? {
        Memcpy(bytes, 0, ToNetwork(f.id));
        at := 2;
      }
      Memcpy(bytes, at, ToNetwork(|f.body|));
      assert bytes[..fmt.HeadLen()] == Head(fmt, f.id, |f.body|);
      Memcpy(bytes, at + 2, f.body);
      assert bytes[..total] == bytes[..fmt.HeadLen()] + bytes[fmt.HeadLen()..total];
      this.data := bytes;
      this.totalLen, this.id, this.curLen := total, f.id, 0;
    }

    method Clear()
      requires Valid()
      modifies this, data
      ensures Valid() && Filled() == []
      ensures forall i | 0 <= i < totalLen :: data[i] == 0
    {
      Memset(data, totalLen);
      curLen := 0;
    }
  }
}
