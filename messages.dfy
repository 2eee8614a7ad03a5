/**
 * The model's reply as `client.messages.create` returns it, seen from the
 * harness: a list of content blocks of which only the text blocks are read.
 * The client itself (its construction, the API key, the network) is not
 * modelled; each attempt's outcome is given.
 */
module Messages {

  /** One content block of a reply: `block.type == "text"` with its `block.text`, or a block of another type. */
  datatype Block = TextBlock(text: string) | OtherBlock(kind: string)

  /** What one call to the endpoint does: raise an exception (with `str(e)`) or return a reply. */
  datatype Outcome = Raise(message: string) | Reply(content: seq<Block>)

  /** The texts of the text blocks of `blocks`, in order, concatenated. */
  function TextOf(blocks: seq<Block>): string {
    if blocks == [] then ""
    else
      var last := blocks[|blocks| - 1];
      TextOf(blocks[..|blocks| - 1]) + (if last.TextBlock? then last.text else "")
  }

  /** Concatenating replies concatenates their texts. */
  lemma {:induction false} TextOfConcat(a: seq<Block>, b: seq<Block>)
    ensures TextOf(a + b) == TextOf(a) + TextOf(b)
    decreases |b|
  {
    if b == [] {
      assert a + b == a;
    } else {
      var b' := b[..|b| - 1];
      assert (a + b)[..|a + b| - 1] == a + b';
      TextOfConcat(a, b');
    }
  }

  /** A reply without text blocks yields the empty string. */
  lemma {:induction false} NoTextBlocks(blocks: seq<Block>)
    requires forall i :: 0 <= i < |blocks| ==> !blocks[i].TextBlock?
    ensures TextOf(blocks) == ""
  {
    if blocks != [] {
      NoTextBlocks(blocks[..|blocks| - 1]);
    }
  }

  /** The loop of `predict_code` that builds `out` from `msg.content`. */
  method CollectText(blocks: seq<Block>) returns (out: string)
    ensures out == TextOf(blocks)
  {
    out := "";
    var i := 0;
    while i < |blocks|
      invariant 0 <= i <= |blocks|
      invariant out == TextOf(blocks[..i])
    {
      assert blocks[..i + 1][..i] == blocks[..i];
      if blocks[i].TextBlock? {
        out := out + blocks[i].text;
      }
      i := i + 1;
    }
    assert blocks[..i] == blocks;
  }
}
