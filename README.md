# Pooling layer of NeuralNetwork.NET, modelled in Dafny

This project models the CPU pooling layer of NeuralNetwork.NET
(`PoolingLayer`, a 2x2 window with a stride of 2). The model covers:

- building the layer from an input `TensorInfo`, a `PoolingInfo` and an
  `ActivationFunctionType`;
- cloning the layer;
- how `Forward` and `Backpropagate` hand their tensors to the pooling and
  activation kernels;
- writing the layer into a byte stream and reading it back.

Modules, one per concern:

- `Binary` (`binary.dfy`): 8-bit and 32-bit integers, and the little-endian
  two's-complement image of an `int32`.
- `Structs` (`structs.dfy`): `TensorInfo`, `PoolingInfo` (with its
  `DefaultPoolingInfo` sentinel), `ActivationFunctionType` and `LayerType`,
  and the fixed-width records they are written as: 12, 16 and 1 bytes.
- `Streams` (`streams.dfy`): a `MemoryStream` class with a byte sequence and
  a position. `Write` overwrites at the position and extends the stream, as a
  memory stream does. `Read` returns fewer bytes only when the stream ends.
  `TryRead` reads one record and fails when the record is cut short.
- `Tensors` (`tensors.dfy`): a tensor is a fixed shape over memory whose
  values a kernel may overwrite in place.
- `PoolingLayers` (`pooling_layer.dfy`): the layer, covered below.

The layer is a value. Its own `PoolingInfo` field is declared read-only
(`PoolingLayer.cs` line 25). The input shape, output shape and activation live in the layer
base class, which is not part of this model. They are assumed read-only too:
nothing in the pooling layer writes them after construction.
`Consistent` is the invariant that every layer the constructor builds keeps:
the output shape is the one the operation derives from the input. Clone and
Deserialize both preserve it.

`Deserialize` is a method over the stream. It is proved equal to
`DeserializeFrom`, a function that reads the four records in source order:
input shape, output shape, activation, `PoolingInfo`. The output-shape record
is read and then discarded.

The line-70 condition is modelled as written: `!ok && operation == Default`.
`leftover` stands for the `PoolingInfo` value a short read leaves behind. So
a truncated `PoolingInfo` record still yields a layer unless `leftover`
happens to equal the default. A stored default value is always accepted.

Three facts about the source shape the model:

- Line 70 combines the failed read and the default test with `&&`. So a short
  `PoolingInfo` read returns null only when the leftover value is the default.
- `Forward` performs no shape check, so it has no precondition.
- `Deserialize` ignores the stored output shape and recomputes it from the
  input shape.

Two collaborators are parameters, because their code is not part of this
model:

- `PoolingInfo.GetForwardOutputTensorInfo` is the parameter `shape`, of type
  `OutputShape`.
- The kernels `Pool2x2`, `Activation` and `UpscalePool2x2` are the fields of
  `Kernels`.

Every property below holds for any choice of them.

## Model

| member | source | states |
|---|---|---|
| `PoolingLayers.NewPoolingLayer` | NeuralNetwork.NET/Networks/Layers/Cpu/PoolingLayer.cs:36-38 | The constructed layer has exactly the given input shape, operation and activation, and its output shape is `GetForwardOutputTensorInfo(input)`. So it is `Consistent`. |
| `PoolingLayers.LayerTypeOf` | NeuralNetwork.NET/Networks/Layers/Cpu/PoolingLayer.cs:22 | Every pooling layer reports `LayerType` Pooling, whatever its configuration. |
| `PoolingLayers.Clone` | NeuralNetwork.NET/Networks/Layers/Cpu/PoolingLayer.cs:51 | The clone has the same input shape, `OperationInfo` and activation as the source. It is `Consistent` and reports `LayerType` Pooling. It equals the source exactly when the source is `Consistent`, as every constructed layer is. |
| `PoolingLayers.Forward` | NeuralNetwork.NET/Networks/Layers/Cpu/PoolingLayer.cs:41-45 | `z` is `Pool2x2` of the input with the input's channel count. `a` is the layer's activation applied to that `z`. Both are new tensors. |
| `PoolingLayers.Backpropagate` | NeuralNetwork.NET/Networks/Layers/Cpu/PoolingLayer.cs:48 | Only `z`'s memory changes. It becomes `UpscalePool2x2` of the old `z`, `delta_1` and the input's channel count. `activationPrime` has no effect on the result. |
| `PoolingLayers.SerializeBase` | NeuralNetwork.NET/Networks/Layers/Cpu/PoolingLayer.cs:56 | The base writes the input shape, output shape and activation records in that order, at the stream position, and moves past them. |
| `PoolingLayers.SerializedBytes` | NeuralNetwork.NET/Networks/Layers/Cpu/PoolingLayer.cs:54-58 | A serialized layer is 41 bytes: the 25 base bytes followed by the `PoolingInfo` record. |
| `PoolingLayers.Serialize` | NeuralNetwork.NET/Networks/Layers/Cpu/PoolingLayer.cs:54-58 | The stream receives exactly the base records and then one `PoolingInfo` record at its position, and the position advances by 41. Bytes before the position are unchanged, and so are bytes after the write when it lands inside the stream. |
| `PoolingLayers.SerializedRecords` | NeuralNetwork.NET/Networks/Layers/Cpu/PoolingLayer.cs:54-58 | Decoding the four records of a serialized layer in order gives back its input shape, output shape, activation and `OperationInfo`. |
| `PoolingLayers.DeserializeFrom` | NeuralNetwork.NET/Networks/Layers/Cpu/PoolingLayer.cs:65-72 | The result is null exactly when a base record is short (fewer than 25 bytes), or when the `PoolingInfo` record is short and the leftover value equals the default. Any layer read is `Consistent`. It never consumes more bytes than remain, and a null result has consumed all of them. |
| `PoolingLayers.Deserialize` | NeuralNetwork.NET/Networks/Layers/Cpu/PoolingLayer.cs:65-72 | Reading from a stream returns what `DeserializeFrom` gives for the bytes after the position, and advances the position by exactly the bytes it consumed. The stream's contents are unchanged. |
| `PoolingLayers.DeserializedFields` | NeuralNetwork.NET/Networks/Layers/Cpu/PoolingLayer.cs:67-71 | A layer read back takes its input shape from bytes 0-11 and its activation from byte 24. Its operation is the record at bytes 25-40, or the leftover value when that record is short. Its output shape is recomputed from these. |
| `PoolingLayers.OutputRecordIgnored` | NeuralNetwork.NET/Networks/Layers/Cpu/PoolingLayer.cs:68 | Two byte sequences of equal length that differ only in the output-shape record (bytes 12-23) deserialize identically. This includes sequences cut short inside that record. |
| `PoolingLayers.TruncatedPoolingInfoAccepted` | NeuralNetwork.NET/Networks/Layers/Cpu/PoolingLayer.cs:70-71 | Suppose the base records are complete, the `PoolingInfo` record is short, and the leftover value is not the default. Then a layer is still returned, with the leftover as its operation. |
| `PoolingLayers.StoredDefaultAccepted` | NeuralNetwork.NET/Networks/Layers/Cpu/PoolingLayer.cs:70-71 | A layer whose stored operation is the default `PoolingInfo` is read back intact, whatever the leftover value. |
| `PoolingLayers.DeserializeSerialized` | NeuralNetwork.NET/Networks/Layers/Cpu/PoolingLayer.cs:65-72 | Reading the bytes `Serialize` wrote, followed by anything, gives back the same `Consistent` layer and consumes exactly 41 bytes. |
| `PoolingLayers.PersistAndLoad` | NeuralNetwork.NET/Networks/Layers/Cpu/PoolingLayer.cs:54-72 | Serializing into a fresh stream and deserializing from the bytes written returns the same layer, which also equals its clone. |
| `Structs.TensorInfoRoundTrip` | NeuralNetwork.NET/Networks/Layers/Cpu/PoolingLayer.cs:67 | A `TensorInfo` survives being written and read as its 12-byte record. |
| `Structs.TensorInfoOnto` | NeuralNetwork.NET/Networks/Layers/Cpu/PoolingLayer.cs:67 | Every 12-byte record is the encoding of the `TensorInfo` it decodes to, so the record codec is a bijection. |
| `Structs.PoolingInfoRoundTrip` | NeuralNetwork.NET/Networks/Layers/Cpu/PoolingLayer.cs:70 | A `PoolingInfo` survives being written and read as its 16-byte record. |
| `Structs.PoolingInfoOnto` | NeuralNetwork.NET/Networks/Layers/Cpu/PoolingLayer.cs:70 | Every 16-byte record is the encoding of the `PoolingInfo` it decodes to. |
| `Binary.Int32RoundTrip` | NeuralNetwork.NET/Networks/Layers/Cpu/PoolingLayer.cs:57 | Every 32-bit field written as four little-endian bytes reads back unchanged. |
| `Binary.Int32Onto` | NeuralNetwork.NET/Networks/Layers/Cpu/PoolingLayer.cs:67 | Every four bytes are the encoding of the 32-bit integer they decode to. |
| `Streams.MemoryStream.Write` | NeuralNetwork.NET/Networks/Layers/Cpu/PoolingLayer.cs:57 | The bytes land at the position and overwrite or extend the stream. The position moves past them. |
| `Streams.OverwriteTwice` | NeuralNetwork.NET/Networks/Layers/Cpu/PoolingLayer.cs:56-57 | Two consecutive writes leave the stream as one write of both blocks would. |
| `Streams.TryRead` | NeuralNetwork.NET/Networks/Layers/Cpu/PoolingLayer.cs:67 | A record read succeeds exactly when the full record remains, and then returns those bytes. A short read still consumes the rest of the stream. |

## Left out

- `NeuralNetwork.NET.Cuda/Extensions/GpuExtensions.cs` is left out entirely. It fills copy descriptors and calls the CUDA driver: the 2D copies, the context switch and the memory query. That library's behaviour is not part of this model.
- The numeric kernels `Pool2x2`, `UpscalePool2x2` and `Activation` are not part of this model. They are uninterpreted function parameters. So nothing is claimed about maxima, arg-max routing, tie-breaking or any concrete input/output values.
- `PoolingInfo.GetForwardOutputTensorInfo` is not part of this model. It is the parameter `shape`, so output shapes such as "half the height and width" are not derived.
- `shape` is assumed total: an exception from `GetForwardOutputTensorInfo` on a stored shape is not modelled, so `DeserializeFrom` covers only the null returns. A stored shape can be any three 32-bit integers, zero or negative included.
- The bodies of the layer base's `Serialize` and of the stream `Write`/`TryRead` extensions are not part of this model. The model assumes the base writes input shape, output shape and activation in the order `Deserialize` reads them. It also assumes a read fails exactly when fewer bytes remain than the record's width.
- Record layouts are assumed, since the struct definitions are not part of this model:
  - `TensorInfo` is three little-endian `int32` values.
  - `PoolingInfo` is window height, window width, vertical stride and horizontal stride as `int32`.
  - `ActivationFunctionType` is one byte.
  - The default `PoolingInfo` is a 2x2 window with a stride of 2.
- `MemoryStream.Read` returns every requested byte that remains. Streams that return short reads before their end are not modelled.
- 32-bit floating-point tensor values are modelled as reals. No arithmetic on them is modelled.
- `Clone`: the layer is a value, so the clone being a distinct object from its source is not modelled. Equality of configuration is.
- The JSON serialization attributes on the class and on the `OperationInfo` field are metadata and are not modelled.
- `LayerType`: the enumeration is not part of this model. Only its Pooling member appears in the layer, so every other member is folded into `OtherLayer`.
