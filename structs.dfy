/**
 * The value records a pooling layer is configured with and persists, and
 * their fixed-width byte records. The structs' own files are not part of
 * this model: the field layouts below are the assumed memory images.
 */
module Structs {
  import opened Binary

  /** Shape of a tensor: height, width and channel count. */
  datatype TensorInfo = TensorInfo(Height: int32, Width: int32, Channels: int32)

  /** Window and stride of a pooling operation. */
  datatype PoolingInfo = PoolingInfo(WindowHeight: int32, WindowWidth: int32,
                                     VerticalStride: int32, HorizontalStride: int32)

  /** The sentinel the deserializer compares against: a 2x2 window with a stride of 2. */
  const DefaultPoolingInfo := PoolingInfo(2, 2, 2, 2)

  /**
   * An activation function identifier. The enumeration is stored as one
   * byte and, as in any enum cast, every code decodes to a value.
   */
  datatype ActivationFunctionType = ActivationFunctionType(Code: uint8)

  /**
   * The kind a layer reports. Only Pooling matters here; the enumeration's
   * other members are not part of this model and are folded into OtherLayer.
   */
  datatype LayerType = Pooling | OtherLayer

  const TensorInfoSize: nat := 12
  const ActivationSize: nat := 1
  const PoolingInfoSize: nat := 16

  function EncodeTensorInfo(t: TensorInfo): (r: seq<uint8>)
    ensures |r| == TensorInfoSize
  {
    EncodeInt32(t.Height) + EncodeInt32(t.Width) + EncodeInt32(t.Channels)
  }

  function DecodeTensorInfo(b: seq<uint8>): (r: TensorInfo)
    requires |b| == TensorInfoSize
  {
    TensorInfo(DecodeInt32(b[..4]), DecodeInt32(b[4..8]), DecodeInt32(b[8..]))
  }

  function EncodeActivation(a: ActivationFunctionType): (r: seq<uint8>)
    ensures |r| == ActivationSize
  {
    [a.Code]
  }

  function DecodeActivation(b: seq<uint8>): (r: ActivationFunctionType)
    requires |b| == ActivationSize
  {
    ActivationFunctionType(b[0])
  }

  function EncodePoolingInfo(p: PoolingInfo): (r: seq<uint8>)
    ensures |r| == PoolingInfoSize
  {
    EncodeInt32(p.WindowHeight) + EncodeInt32(p.WindowWidth)
      + EncodeInt32(p.VerticalStride) + EncodeInt32(p.HorizontalStride)
  }

  function DecodePoolingInfo(b: seq<uint8>): (r: PoolingInfo)
    requires |b| == PoolingInfoSize
  {
    PoolingInfo(DecodeInt32(b[..4]), DecodeInt32(b[4..8]),
                DecodeInt32(b[8..12]), DecodeInt32(b[12..]))
  }

  lemma TensorInfoRoundTrip(t: TensorInfo)
    ensures DecodeTensorInfo(EncodeTensorInfo(t)) == t
  {
    var b := EncodeTensorInfo(t);
    assert b[..4] == EncodeInt32(t.Height);
    assert b[4..8] == EncodeInt32(t.Width);
    assert b[8..] == EncodeInt32(t.Channels);
    Int32RoundTrip(t.Height);
    Int32RoundTrip(t.Width);
    Int32RoundTrip(t.Channels);
  }

  /** A TensorInfo record is the encoding of what it decodes to. */
  lemma TensorInfoOnto(b: seq<uint8>)
    requires |b| == TensorInfoSize
    ensures EncodeTensorInfo(DecodeTensorInfo(b)) == b
  {
    Int32Onto(b[..4]);
    Int32Onto(b[4..8]);
    Int32Onto(b[8..]);
    assert b == b[..4] + b[4..8] + b[8..];
  }

  lemma PoolingInfoRoundTrip(p: PoolingInfo)
    ensures DecodePoolingInfo(EncodePoolingInfo(p)) == p
  {
    var b := EncodePoolingInfo(p);
    assert b[..4] == EncodeInt32(p.WindowHeight);
    assert b[4..8] == EncodeInt32(p.WindowWidth);
    assert b[8..12] == EncodeInt32(p.VerticalStride);
    assert b[12..] == EncodeInt32(p.HorizontalStride);
    Int32RoundTrip(p.WindowHeight);
    Int32RoundTrip(p.WindowWidth);
    Int32RoundTrip(p.VerticalStride);
    Int32RoundTrip(p.HorizontalStride);
  }

  /** A PoolingInfo record is the encoding of what it decodes to. */
  lemma PoolingInfoOnto(b: seq<uint8>)
    requires |b| == PoolingInfoSize
    ensures EncodePoolingInfo(DecodePoolingInfo(b)) == b
  {
    Int32Onto(b[..4]);
    Int32Onto(b[4..8]);
    Int32Onto(b[8..12]);
    Int32Onto(b[12..]);
    assert b == b[..4] + b[4..8] + b[8..12] + b[12..];
  }
}
