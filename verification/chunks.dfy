/** `sendChunks`: a long reply goes out as consecutive messages of at most 4096 bytes. */
module Chunks {
  import opened Text
  import opened Telegram

  /** The `max` constant of `sendChunks`, Telegram's message size limit. */
  const MaxChunk: nat := 4096

  /** The pieces of `s` joined back together in order. */
  function Concat(ss: seq<GoString>): GoString
    decreases |ss|
  {
    if ss == [] then [] else ss[0] + Concat(ss[1..])
  }

  /**
   * The pieces `sendChunks` cuts `text` into: `text[i:min(i+4096, len)]`
   * for i = 0, 4096, 8192, ... while i < len(text).
   */
  function Pieces(text: GoString): (ps: seq<GoString>)
    ensures Concat(ps) == text
    ensures |ps| == (|text| + MaxChunk - 1) / MaxChunk
    ensures forall k :: 0 <= k < |ps| ==> 0 < |ps[k]| <= MaxChunk
    ensures forall k :: 0 <= k < |ps| - 1 ==> |ps[k]| == MaxChunk
    decreases |text|
  {
    if |text| == 0 then
      []
    else if |text| <= MaxChunk then
      assert Concat([text]) == text + Concat([]);
      [text]
    else
      var rest := Pieces(text[MaxChunk..]);
      assert Concat([text[..MaxChunk]] + rest) == text[..MaxChunk] + Concat(rest) by {
        assert ([text[..MaxChunk]] + rest)[1..] == rest;
      }
      assert text[..MaxChunk] + text[MaxChunk..] == text;
      [text[..MaxChunk]] + rest
  }

  /** Piece k is the byte range [4096k, min(4096(k+1), len)) of the text. */
  lemma {:induction false} PieceAt(text: GoString, k: nat)
    requires k * MaxChunk < |text|
    ensures k < |Pieces(text)|
    ensures Pieces(text)[k] == text[k * MaxChunk..if (k + 1) * MaxChunk <= |text| then (k + 1) * MaxChunk else |text|]
    decreases k
  {
    if k > 0 {
      var j := k - 1;
      assert k * MaxChunk == j * MaxChunk + MaxChunk;
      assert (k + 1) * MaxChunk == (j + 1) * MaxChunk + MaxChunk;
      PieceAt(text[MaxChunk..], j);
      assert text[MaxChunk..][j * MaxChunk..] == text[k * MaxChunk..];
    }
  }

  /**
   * `sendChunks`: one text message per piece, in order, each to the same
   * chat and each carrying the original reply-to ID (not only the first).
   */
  method SendChunks(chatId: int, text: GoString, replyTo: int) returns (out: seq<Outbound>)
    ensures |out| == |Pieces(text)|
    ensures forall k :: 0 <= k < |out| ==> out[k] == TextMessage(chatId, Pieces(text)[k], replyTo)
  {
    out := [];
    var i := 0;
    while i < |text|
      invariant i == |out| * MaxChunk
      invariant |out| <= |Pieces(text)|
      invariant i < |text| ==> |out| < |Pieces(text)|
      invariant forall k :: 0 <= k < |out| ==> out[k] == TextMessage(chatId, Pieces(text)[k], replyTo)
      decreases |text| - i
    {
      var end := i + MaxChunk;
      if end > |text| {
        end := |text|;
      }
      PieceAt(text, |out|);
      out := out + [TextMessage(chatId, text[i..end], replyTo)];
      i := i + MaxChunk;
    }
  }

  /** A 9000-byte reply goes out as three messages of 4096, 4096 and 808 bytes. */
  lemma NineThousandBytes(text: GoString)
    requires |text| == 9000
    ensures |Pieces(text)| == 3
    ensures |Pieces(text)[0]| == 4096 && |Pieces(text)[1]| == 4096 && |Pieces(text)[2]| == 808
  {
    PieceAt(text, 2);
  }
}
