/**
  The output-decoding policy applied to the tool's captured standard
  output and standard error before they are shown: under the Simplified
  Chinese ANSI code page both streams are converted from GBK, each on its
  own and falling back to its raw bytes when conversion fails; under any
  other code page both are shown unchanged.
 */
module OutputDecoding {
  import opened Types

  /** The ANSI code page whose output the tool writes in GBK. */
  const GbkCodePage: nat := 936

  /** `GbkToUtf8`: the converted bytes, or `None` when the input is not valid GBK. */
  type GbkDecoder = seq<byte> -> Option<seq<byte>>

  /** Diagnostic lines the policy adds to the log. */
  datatype DecodeNote = StdoutNotDecoded | StderrNotDecoded | NotGbkCodePage(codePage: nat)

  datatype Decoded = Decoded(stdout: seq<byte>, stderr: seq<byte>, notes: seq<DecodeNote>)

  /** One stream under the GBK code page: the converted bytes, or the raw bytes if conversion fails. */
  function DecodeGbkStream(raw: seq<byte>, gbk: GbkDecoder): (text: seq<byte>)
    ensures gbk(raw).None? ==> text == raw
    ensures gbk(raw).Some? ==> text == gbk(raw).value
  {
    match gbk(raw)
    case Some(utf8) => utf8
    case None => raw
  }

  /** The decode branch of `executeCommand`, for the code page read once at start-up. */
  function DecodeOutputs(codePage: nat, outRaw: seq<byte>, errRaw: seq<byte>, gbk: GbkDecoder): (r: Decoded)
    ensures codePage != GbkCodePage ==> r.stdout == outRaw && r.stderr == errRaw
    ensures codePage != GbkCodePage ==> r.notes == [NotGbkCodePage(codePage)]
    ensures codePage == GbkCodePage ==>
              && r.stdout == DecodeGbkStream(outRaw, gbk)
              && r.stderr == DecodeGbkStream(errRaw, gbk)
              && (StdoutNotDecoded in r.notes <==> gbk(outRaw).None?)
              && (StderrNotDecoded in r.notes <==> gbk(errRaw).None?)
              && (forall i :: 0 <= i < |r.notes| ==> !r.notes[i].NotGbkCodePage?)
              && |r.notes| <= 2
              && (|r.notes| == 2 ==> r.notes == [StdoutNotDecoded, StderrNotDecoded])
  {
    if codePage == GbkCodePage then
      var outNote: seq<DecodeNote> := if gbk(outRaw).None? then [StdoutNotDecoded] else [];
      var errNote: seq<DecodeNote> := if gbk(errRaw).None? then [StderrNotDecoded] else [];
      Decoded(DecodeGbkStream(outRaw, gbk), DecodeGbkStream(errRaw, gbk), outNote + errNote)
    else
      Decoded(outRaw, errRaw, [NotGbkCodePage(codePage)])
  }

  /**
    Each stream is decoded on its own: what is shown for one never depends
    on the other, and both follow the same per-stream rule.
   */
  lemma StreamsDecodedIndependently(codePage: nat, out1: seq<byte>, out2: seq<byte>,
                                    err1: seq<byte>, err2: seq<byte>, gbk: GbkDecoder)
    ensures DecodeOutputs(codePage, out1, err1, gbk).stdout == DecodeOutputs(codePage, out1, err2, gbk).stdout
    ensures DecodeOutputs(codePage, out1, err1, gbk).stderr == DecodeOutputs(codePage, out2, err1, gbk).stderr
    ensures DecodeOutputs(codePage, out1, err1, gbk).stdout == DecodeOutputs(codePage, err2, out1, gbk).stderr
  {
  }

  /** A stream that is not valid GBK is shown as its raw bytes, whatever the code page. */
  lemma InvalidGbkShownRaw(codePage: nat, outRaw: seq<byte>, errRaw: seq<byte>, gbk: GbkDecoder)
    requires gbk(outRaw).None?
    ensures DecodeOutputs(codePage, outRaw, errRaw, gbk).stdout == outRaw
  {
  }

  /** Outside the GBK code page the decoder is never consulted. */
  lemma OtherCodePagesIgnoreDecoder(codePage: nat, outRaw: seq<byte>, errRaw: seq<byte>, g1: GbkDecoder, g2: GbkDecoder)
    requires codePage != GbkCodePage
    ensures DecodeOutputs(codePage, outRaw, errRaw, g1) == DecodeOutputs(codePage, outRaw, errRaw, g2)
  {
  }
}
