/** How replies are cut to fit the chat service: a text reply is sent in slices of
    1900 characters, and a listing goes out as embeds of at most 20 fields each. */
module Paging {
  import opened PyStr

  const MessageLimit: nat := 1900
  const MaxFields: nat := 20

  /** The text of consecutive slices, put back together. */
  function Concat(parts: seq<string>): string
  {
    if |parts| == 0 then "" else Concat(parts[..|parts| - 1]) + parts[|parts| - 1]
  }

  /** `[msg[i:i + 1900] for i in range(0, len(msg), 1900)]`: the messages the text is
      sent as. */
  method Chunk(msg: string) returns (parts: seq<string>)
    ensures Concat(parts) == msg
    ensures forall k :: 0 <= k < |parts| ==> 0 < |parts[k]| <= MessageLimit
    ensures forall k :: 0 <= k < |parts| - 1 ==> |parts[k]| == MessageLimit
    ensures |parts| == (|msg| + MessageLimit - 1) / MessageLimit
  {
    parts := [];
    var i := 0;
    while i < |msg|
      invariant i == |parts| * MessageLimit
      invariant i <= |msg| ==> Concat(parts) == msg[..i]
      invariant i > |msg| ==> Concat(parts) == msg && |parts| > 0
      invariant forall k :: 0 <= k < |parts| ==> 0 < |parts[k]| <= MessageLimit
      invariant i <= |msg| ==> forall k :: 0 <= k < |parts| ==> |parts[k]| == MessageLimit
      invariant i > |msg| ==> forall k :: 0 <= k < |parts| - 1 ==> |parts[k]| == MessageLimit
      invariant i > |msg| ==> i - MessageLimit < |msg|
      decreases |msg| - i
    {
      var part := Slice(msg, i, i + MessageLimit);
      assert part == msg[i..if i + MessageLimit <= |msg| then i + MessageLimit else |msg|];
      assert msg[..i] + part == msg[..if i + MessageLimit <= |msg| then i + MessageLimit else |msg|];
      parts := parts + [part];
      i := i + MessageLimit;
    }
    if i <= |msg| {
      assert msg[..i] == msg;
    }
  }

  /** One embed: its title and its fields. */
  datatype Embed<F> = Embed(title: string, fields: seq<F>)

  /** The fields of a run of embeds, in order. */
  function Fields<F>(pages: seq<Embed<F>>): seq<F>
  {
    if |pages| == 0 then [] else Fields(pages[..|pages| - 1]) + pages[|pages| - 1].fields
  }

  /** The embed loop of the live listings: a new embed, with the continuation title, is
      started whenever the current one holds 20 fields; the last embed is always sent. */
  method Paginate<F>(firstTitle: string, nextTitle: string, items: seq<F>) returns (pages: seq<Embed<F>>)
    ensures |pages| > 0 && Fields(pages) == items
    ensures pages[0].title == firstTitle
    ensures forall k :: 0 < k < |pages| ==> pages[k].title == nextTitle
    ensures forall k :: 0 <= k < |pages| ==> |pages[k].fields| <= MaxFields
    ensures forall k :: 0 <= k < |pages| - 1 ==> |pages[k].fields| == MaxFields
    ensures |items| > 0 ==> forall k :: 0 <= k < |pages| ==> |pages[k].fields| > 0
  {
    pages := [];
    var embed := Embed(firstTitle, []);
    var fieldCount := 0;
    for i := 0 to |items|
      invariant fieldCount == |embed.fields| <= MaxFields
      invariant Fields(pages) + embed.fields == items[..i]
      invariant (if |pages| == 0 then embed.title else pages[0].title) == firstTitle
      invariant forall k :: 0 < k < |pages| ==> pages[k].title == nextTitle
      invariant |pages| > 0 ==> embed.title == nextTitle
      invariant forall k :: 0 <= k < |pages| ==> |pages[k].fields| == MaxFields
      invariant i > 0 ==> fieldCount > 0
    {
      if fieldCount >= MaxFields {
        pages := pages + [embed];
        embed := Embed(nextTitle, []);
        fieldCount := 0;
      }
      assert items[..i + 1] == items[..i] + [items[i]];
      embed := embed.(fields := embed.fields + [items[i]]);
      fieldCount := fieldCount + 1;
    }
    pages := pages + [embed];
    assert items[..|items|] == items;
  }
}
