/** The sample-format dispatch of `gst_morse_src_setcaps`: which tone
    generator writes the buffer and whether its output is packed into the
    negotiated format afterwards. */
module Formats {

  /** The formats the dispatch distinguishes: the four native-endian formats
      a generator writes directly, and every other negotiated format. */
  datatype AudioFormat = S16 | S32 | F32 | F64 | OtherFormat

  /** The four instances of the `CW_GENERATOR` macro, by sample type. */
  datatype Generator = GenInt16 | GenInt32 | GenFloat | GenDouble

  /** The generator chosen, whether a pack step follows, and the size in
      bytes of one intermediate sample when it does (0 when it does not). */
  datatype Dispatch = Dispatch(generator: Generator, pack: bool, packSize: nat)

  /** The format a generator's samples are in. */
  function Writes(g: Generator): AudioFormat
  {
    match g
    case GenInt16 => S16
    case GenInt32 => S32
    case GenFloat => F32
    case GenDouble => F64
  }

  /** `sizeof` the generator's sample type. */
  function SampleBytes(g: Generator): nat
  {
    match g
    case GenInt16 => 2
    case GenInt32 => 4
    case GenFloat => 4
    case GenDouble => 8
  }

  /** The formats the dispatch can handle: a native one, or one whose
      unpack format is 32-bit integer or 64-bit float. */
  predicate Supported(format: AudioFormat, unpack: AudioFormat)
  {
    format != OtherFormat || unpack == S32 || unpack == F64
  }

  /** The switch on the negotiated format and, failing that, on its unpack
      format; any other combination is the unreachable-assertion case. */
  function SelectGenerator(format: AudioFormat, unpack: AudioFormat): (d: Dispatch)
    requires Supported(format, unpack)
    ensures d.pack <==> format == OtherFormat
    ensures !d.pack ==> Writes(d.generator) == format && d.packSize == 0
    ensures d.pack ==> Writes(d.generator) == unpack && d.packSize == SampleBytes(d.generator)
  {
    match format
    case S16 => Dispatch(GenInt16, false, 0)
    case S32 => Dispatch(GenInt32, false, 0)
    case F32 => Dispatch(GenFloat, false, 0)
    case F64 => Dispatch(GenDouble, false, 0)
    case OtherFormat =>
      if unpack == S32 then Dispatch(GenInt32, true, 4)
      else Dispatch(GenDouble, true, 8)
  }
}
