/**
 * The CPU pooling layer: its configuration, cloning, forward and backward
 * delegation, and its binary persistence.
 */
module PoolingLayers {
  import opened Wrappers
  import opened Binary
  import opened Structs
  import opened Streams
  import opened Tensors

  /**
   * PoolingInfo.GetForwardOutputTensorInfo: the output shape a pooling
   * operation gives an input shape. Its definition is not part of this
   * model, so every member below takes it as a parameter.
   */
  type OutputShape = (PoolingInfo, TensorInfo) -> TensorInfo

  /**
   * The numeric kernels the layer delegates to, left uninterpreted:
   * 2x2 pooling of a tensor with a given channel count, the layer's
   * activation applied element-wise, and the upscaling that writes the
   * routed gradient into the pre-activation tensor's memory.
   */
  datatype Kernels = Kernels(
    Pool2x2: (TensorData, int32) -> TensorData,
    Activation: (TensorData, ActivationFunctionType) -> TensorData,
    UpscalePool2x2: (TensorData, TensorData, int32) -> seq<real>)

  /** An activation derivative, as handed to Backpropagate. */
  type ActivationFunction = real -> real

  datatype PoolingLayer = PoolingLayer(
    InputInfo: TensorInfo,
    OutputInfo: TensorInfo,
    ActivationFunctionType: ActivationFunctionType,
    OperationInfo: PoolingInfo)

  /** A pooling layer whatever its configuration. */
  function LayerTypeOf(l: PoolingLayer): (r: LayerType)
    ensures r == Pooling
  {
    Pooling
  }

  /** Every layer the constructor builds has its output shape derived from its input. */
  predicate Consistent(shape: OutputShape, l: PoolingLayer)
  {
    l.OutputInfo == shape(l.OperationInfo, l.InputInfo)
  }

  /** The constructor: the output shape comes from the operation, never from the caller. */
  function NewPoolingLayer(shape: OutputShape, input: TensorInfo, operation: PoolingInfo,
                           activation: ActivationFunctionType): (l: PoolingLayer)
    ensures Consistent(shape, l)
    ensures l.InputInfo == input && l.OperationInfo == operation
    ensures l.ActivationFunctionType == activation
    ensures l.OutputInfo == shape(operation, input)
  {
    PoolingLayer(input, shape(operation, input), activation, operation)
  }

  /** Rebuilds the layer from its configuration only. */
  function Clone(shape: OutputShape, l: PoolingLayer): (r: PoolingLayer)
    ensures r.InputInfo == l.InputInfo && r.OperationInfo == l.OperationInfo
    ensures r.ActivationFunctionType == l.ActivationFunctionType
    ensures Consistent(shape, r) && LayerTypeOf(r) == Pooling
    ensures Consistent(shape, l) <==> r == l
  {
    NewPoolingLayer(shape, l.InputInfo, l.OperationInfo, l.ActivationFunctionType)
  }

  /** Forward pass: pool the input per channel, then activate the pooled tensor. */
  method Forward(l: PoolingLayer, k: Kernels, x: Tensor) returns (z: Tensor, a: Tensor)
    ensures fresh(z) && fresh(a)
    ensures z.Contents() == k.Pool2x2(x.Contents(), l.InputInfo.Channels)
    ensures a.Contents() == k.Activation(z.Contents(), l.ActivationFunctionType)
  {
    z := new Tensor(k.Pool2x2(x.Contents(), l.InputInfo.Channels));
    a := new Tensor(k.Activation(z.Contents(), l.ActivationFunctionType));
  }

  /**
   * Backward pass: upscales delta_1 into z's memory. activationPrime is
   * accepted and not used.
   */
  method Backpropagate(l: PoolingLayer, k: Kernels, delta_1: Tensor, z: Tensor,
                       activationPrime: ActivationFunction)
    modifies z
    ensures z.Values == k.UpscalePool2x2(old(z.Contents()), old(delta_1.Contents()), l.InputInfo.Channels)
  {
    z.Values := k.UpscalePool2x2(z.Contents(), delta_1.Contents(), l.InputInfo.Channels);
  }

  // ---------------------------------------------------------------------------
  // Persistence

  /** What the layer base writes: input shape, output shape, activation. */
  function BaseRecords(l: PoolingLayer): (r: seq<uint8>)
    ensures |r| == 2 * TensorInfoSize + ActivationSize
  {
    EncodeTensorInfo(l.InputInfo) + EncodeTensorInfo(l.OutputInfo)
      + EncodeActivation(l.ActivationFunctionType)
  }

  const BaseSize: nat := 2 * TensorInfoSize + ActivationSize
  const SerializedSize: nat := BaseSize + PoolingInfoSize

  /** The base records followed by the PoolingInfo record. */
  function SerializedBytes(l: PoolingLayer): (r: seq<uint8>)
    ensures |r| == SerializedSize
    ensures r[..BaseSize] == BaseRecords(l)
    ensures r[BaseSize..] == EncodePoolingInfo(l.OperationInfo)
  {
    BaseRecords(l) + EncodePoolingInfo(l.OperationInfo)
  }

  /** The four records of a serialized layer, read back in order, are the layer's fields. */
  lemma SerializedRecords(l: PoolingLayer)
    ensures DecodeTensorInfo(SerializedBytes(l)[..TensorInfoSize]) == l.InputInfo
    ensures DecodeTensorInfo(SerializedBytes(l)[TensorInfoSize..2 * TensorInfoSize]) == l.OutputInfo
    ensures DecodeActivation(SerializedBytes(l)[2 * TensorInfoSize..BaseSize]) == l.ActivationFunctionType
    ensures DecodePoolingInfo(SerializedBytes(l)[BaseSize..SerializedSize]) == l.OperationInfo
  {
    var s := SerializedBytes(l);
    assert s[..TensorInfoSize] == EncodeTensorInfo(l.InputInfo);
    assert s[TensorInfoSize..2 * TensorInfoSize] == EncodeTensorInfo(l.OutputInfo);
    assert s[2 * TensorInfoSize..BaseSize] == EncodeActivation(l.ActivationFunctionType);
    assert s[BaseSize..SerializedSize] == EncodePoolingInfo(l.OperationInfo);
    TensorInfoRoundTrip(l.InputInfo);
    TensorInfoRoundTrip(l.OutputInfo);
    PoolingInfoRoundTrip(l.OperationInfo);
  }

  /** The layer base's Serialize, as the read order of Deserialize implies it. */
  method SerializeBase(l: PoolingLayer, stream: MemoryStream)
    requires stream.Valid()
    modifies stream
    ensures stream.Valid()
    ensures stream.Data == Overwrite(old(stream.Data), old(stream.Position), BaseRecords(l))
    ensures stream.Position == old(stream.Position) + BaseSize
  {
    ghost var data, pos := stream.Data, stream.Position;
    stream.Write(EncodeTensorInfo(l.InputInfo));
    stream.Write(EncodeTensorInfo(l.OutputInfo));
    OverwriteTwice(data, pos, EncodeTensorInfo(l.InputInfo), EncodeTensorInfo(l.OutputInfo));
    stream.Write(EncodeActivation(l.ActivationFunctionType));
    OverwriteTwice(data, pos, EncodeTensorInfo(l.InputInfo) + EncodeTensorInfo(l.OutputInfo),
                   EncodeActivation(l.ActivationFunctionType));
  }

  /** Writes the base records, then the PoolingInfo record, and nothing else. */
  method Serialize(l: PoolingLayer, stream: MemoryStream)
    requires stream.Valid()
    modifies stream
    ensures stream.Valid()
    ensures stream.Data == Overwrite(old(stream.Data), old(stream.Position), SerializedBytes(l))
    ensures stream.Position == old(stream.Position) + SerializedSize
  {
    ghost var data, pos := stream.Data, stream.Position;
    SerializeBase(l, stream);
    stream.Write(EncodePoolingInfo(l.OperationInfo));
    OverwriteTwice(data, pos, BaseRecords(l), EncodePoolingInfo(l.OperationInfo));
  }

  /**
   * Deserialization of the bytes rest, record by record: the layer read (or
   * None) and the number of bytes consumed. leftover is the value the
   * PoolingInfo read leaves behind when it falls short.
   */
  function DeserializeFrom(shape: OutputShape, rest: seq<uint8>, leftover: PoolingInfo)
    : (r: (Option<PoolingLayer>, nat))
    ensures r.1 <= |rest|
    ensures r.0.None? ==> r.1 == |rest|
    ensures r.0.None? <==>
              |rest| < BaseSize || (|rest| < SerializedSize && leftover == DefaultPoolingInfo)
    ensures r.0.Some? ==> Consistent(shape, r.0.value)
  {
    if |rest| < TensorInfoSize then (None, |rest|)
    else
      var input := DecodeTensorInfo(rest[..TensorInfoSize]);
      if |rest| < 2 * TensorInfoSize then (None, |rest|)
      else if |rest| < BaseSize then (None, |rest|)
      else
        var activation := DecodeActivation(rest[2 * TensorInfoSize..BaseSize]);
        var ok := SerializedSize <= |rest|;
        var operation := if ok then DecodePoolingInfo(rest[BaseSize..SerializedSize]) else leftover;
        if !ok && operation == DefaultPoolingInfo then (None, |rest|)
        else (Some(NewPoolingLayer(shape, input, operation, activation)),
              if ok then SerializedSize else |rest|)
  }

  /** Reads input shape, output shape, activation and PoolingInfo; null on the failures above. */
  method Deserialize(shape: OutputShape, stream: MemoryStream, leftover: PoolingInfo)
    returns (r: Option<PoolingLayer>)
    requires stream.Valid()
    modifies stream
    ensures stream.Valid() && stream.Data == old(stream.Data)
    ensures (r, stream.Position - old(stream.Position))
            == DeserializeFrom(shape, old(stream.Remaining()), leftover)
  {
    ghost var rest := stream.Remaining();
    var ok, record := TryRead(stream, TensorInfoSize);
    if !ok { return None; }
    assert record == rest[..TensorInfoSize];
    var input := DecodeTensorInfo(record);
    assert stream.Remaining() == rest[TensorInfoSize..];
    ok, record := TryRead(stream, TensorInfoSize);
    if !ok { return None; }
    assert stream.Remaining() == rest[2 * TensorInfoSize..];
    ok, record := TryRead(stream, ActivationSize);
    if !ok { return None; }
    assert record == rest[2 * TensorInfoSize..BaseSize];
    var activation := DecodeActivation(record);
    assert stream.Remaining() == rest[BaseSize..];
    ok, record := TryRead(stream, PoolingInfoSize);
    assert ok ==> record == rest[BaseSize..SerializedSize];
    var operation := if ok then DecodePoolingInfo(record) else leftover;
    if !ok && operation == DefaultPoolingInfo { return None; }
    return Some(NewPoolingLayer(shape, input, operation, activation));
  }

  /** A successful read decodes the input shape and activation at their offsets; the operation is read or left over. */
  lemma DeserializedFields(shape: OutputShape, rest: seq<uint8>, leftover: PoolingInfo)
    requires DeserializeFrom(shape, rest, leftover).0.Some?
    ensures var l := DeserializeFrom(shape, rest, leftover).0.value;
      && l.InputInfo == DecodeTensorInfo(rest[..TensorInfoSize])
      && l.ActivationFunctionType == DecodeActivation(rest[2 * TensorInfoSize..BaseSize])
      && l.OperationInfo == (if SerializedSize <= |rest| then DecodePoolingInfo(rest[BaseSize..SerializedSize])
                             else leftover)
      && l.OutputInfo == shape(l.OperationInfo, l.InputInfo)
  {
  }

  /**
   * The stored output shape is never used: two byte sequences that differ
   * only inside the output-shape record (bytes 12-23) deserialize alike,
   * including sequences cut short inside that record.
   */
  lemma {:induction false} OutputRecordIgnored(shape: OutputShape, rest: seq<uint8>, other: seq<uint8>,
                                                leftover: PoolingInfo)
    requires |other| == |rest|
    requires forall i | 0 <= i < |rest| && !(TensorInfoSize <= i < 2 * TensorInfoSize) :: other[i] == rest[i]
    ensures DeserializeFrom(shape, other, leftover) == DeserializeFrom(shape, rest, leftover)
  {
    if |rest| >= TensorInfoSize {
      assert other[..TensorInfoSize] == rest[..TensorInfoSize];
    }
    if |rest| >= BaseSize {
      assert other[2 * TensorInfoSize..BaseSize] == rest[2 * TensorInfoSize..BaseSize];
    }
    if |rest| >= SerializedSize {
      assert other[BaseSize..SerializedSize] == rest[BaseSize..SerializedSize];
    }
  }

  /**
   * The line-70 condition: a PoolingInfo read that falls short yields a layer
   * built from whatever it left behind, unless that happens to be the default.
   */
  lemma TruncatedPoolingInfoAccepted(shape: OutputShape, rest: seq<uint8>, leftover: PoolingInfo)
    requires BaseSize <= |rest| < SerializedSize
    requires leftover != DefaultPoolingInfo
    ensures DeserializeFrom(shape, rest, leftover)
            == (Some(NewPoolingLayer(shape, DecodeTensorInfo(rest[..TensorInfoSize]), leftover,
                                     DecodeActivation(rest[2 * TensorInfoSize..BaseSize]))), |rest|)
  {
  }

  /** Deserializing what Serialize wrote gives back the layer, consuming exactly its records. */
  lemma DeserializeSerialized(shape: OutputShape, l: PoolingLayer, tail: seq<uint8>, leftover: PoolingInfo)
    requires Consistent(shape, l)
    ensures DeserializeFrom(shape, SerializedBytes(l) + tail, leftover) == (Some(l), SerializedSize)
  {
    var s := SerializedBytes(l);
    var rest := s + tail;
    SerializedRecords(l);
    assert rest[..TensorInfoSize] == s[..TensorInfoSize];
    assert rest[2 * TensorInfoSize..BaseSize] == s[2 * TensorInfoSize..BaseSize];
    assert rest[BaseSize..SerializedSize] == s[BaseSize..SerializedSize];
  }

  /** A genuinely stored default PoolingInfo is read back, not mistaken for a failure. */
  lemma StoredDefaultAccepted(shape: OutputShape, input: TensorInfo, activation: ActivationFunctionType,
                              leftover: PoolingInfo)
    ensures var l := NewPoolingLayer(shape, input, DefaultPoolingInfo, activation);
      DeserializeFrom(shape, SerializedBytes(l), leftover) == (Some(l), SerializedSize)
  {
    var l := NewPoolingLayer(shape, input, DefaultPoolingInfo, activation);
    DeserializeSerialized(shape, l, [], leftover);
    assert SerializedBytes(l) + [] == SerializedBytes(l);
  }

  /**
   * Persisting a layer into a fresh stream and loading it from the bytes
   * written gives back the same layer, and a clone of it.
   */
  method PersistAndLoad(shape: OutputShape, l: PoolingLayer, leftover: PoolingInfo)
    returns (r: Option<PoolingLayer>)
    requires Consistent(shape, l)
    ensures r == Some(l) && r.value == Clone(shape, l)
  {
    var sink := new MemoryStream([]);
    Serialize(l, sink);
    assert sink.Data == SerializedBytes(l);
    var source := new MemoryStream(sink.Data);
    r := Deserialize(shape, source, leftover);
    DeserializeSerialized(shape, l, [], leftover);
    assert source.Data + [] == source.Data;
  }
}
