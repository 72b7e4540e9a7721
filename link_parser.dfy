/**
 * `Discord.parse_messages`: drains the generator (`list(generator)`), takes
 * at most one video ID from every message, batch by batch and message by
 * message, and removes later duplicates with `dict.fromkeys`.
 */
module LinkParser {
  import opened Wrappers
  import opened Http
  import opened Links
  import opened Dedup
  import opened ChatReader

  /** The IDs the messages contribute, in order: one per message that has a link. */
  function LinksOf(messages: seq<Message>): (ids: seq<string>)
    ensures |ids| <= |messages|
  {
    if messages == [] then []
    else
      LinksOf(messages[..|messages| - 1]) + LinkOf(messages[|messages| - 1])
  }

  /** What one message adds: its extracted ID, or nothing. */
  function LinkOf(m: Message): seq<string>
  {
    match Extract(m.content)
    case Some(id) => [id]
    case None => []
  }

  /** The IDs of all batches, in batch order: the list `messages` before deduplication. */
  function RawLinks(batches: seq<seq<Message>>): seq<string>
  {
    if batches == [] then [] else RawLinks(batches[..|batches| - 1]) + LinksOf(batches[|batches| - 1])
  }

  /** Messages contribute in order: the IDs of a concatenation are the concatenated IDs. */
  lemma {:induction false} LinksOfAppend(a: seq<Message>, b: seq<Message>)
    ensures LinksOf(a + b) == LinksOf(a) + LinksOf(b)
    decreases |b|
  {
    if b == [] {
      assert a + b == a;
    } else {
      assert (a + b)[..|a + b| - 1] == a + b[..|b| - 1];
      LinksOfAppend(a, b[..|b| - 1]);
    }
  }

  /** An ID is in the list exactly when some message's search yields it. */
  lemma {:induction false} LinksOfMembers(messages: seq<Message>)
    ensures forall id :: id in LinksOf(messages) <==>
      exists k :: 0 <= k < |messages| && Extract(messages[k].content) == Some(id)
  {
    if messages != [] {
      var init := messages[..|messages| - 1];
      LinksOfMembers(init);
      forall id | (exists k :: 0 <= k < |messages| && Extract(messages[k].content) == Some(id))
        ensures id in LinksOf(messages)
      {
        var k :| 0 <= k < |messages| && Extract(messages[k].content) == Some(id);
        if k < |messages| - 1 {
          assert init[k] == messages[k];
        }
      }
      forall id | id in LinksOf(init)
        ensures exists k :: 0 <= k < |messages| && Extract(messages[k].content) == Some(id)
      {
        var k :| 0 <= k < |init| && Extract(init[k].content) == Some(id);
        assert messages[k] == init[k];
      }
    }
  }

  /** Every ID in the list is a non-empty, single-line capture. */
  lemma LinksAreOneLine(messages: seq<Message>)
    ensures forall id :: id in LinksOf(messages) ==> |id| > 0 && '\n' !in id
  {
    LinksOfMembers(messages);
    forall id | id in LinksOf(messages)
      ensures |id| > 0 && '\n' !in id
    {
      var k :| 0 <= k < |messages| && Extract(messages[k].content) == Some(id);
      ExtractPriority(messages[k].content);
    }
  }

  /** Each message adds at most one ID, so the raw list is no longer than the messages scanned. */
  lemma {:induction false} RawLinksBound(batches: seq<seq<Message>>)
    ensures |RawLinks(batches)| <= |Flatten(batches)|
  {
    if batches != [] {
      RawLinksBound(batches[..|batches| - 1]);
      FlattenLast(batches);
    }
  }

  function Flatten(batches: seq<seq<Message>>): seq<Message>
  {
    if batches == [] then [] else Flatten(batches[..|batches| - 1]) + batches[|batches| - 1]
  }

  lemma FlattenLast(batches: seq<seq<Message>>)
    requires batches != []
    ensures |Flatten(batches)| == |Flatten(batches[..|batches| - 1])| + |batches[|batches| - 1]|
  {
  }

  /** The raw list over the batches, in batch order, is the list over their concatenated messages. */
  lemma {:induction false} RawLinksAreCaptures(batches: seq<seq<Message>>)
    ensures RawLinks(batches) == LinksOf(Flatten(batches))
  {
    if batches != [] {
      RawLinksAreCaptures(batches[..|batches| - 1]);
      LinksOfAppend(Flatten(batches[..|batches| - 1]), batches[|batches| - 1]);
    }
  }

  /**
   * The deduplicated result of a successful scan holds exactly the IDs that
   * some scanned message yields, each a non-empty single-line capture.
   */
  lemma ParsedIdsAreExtracted(batches: seq<seq<Message>>)
    ensures forall id :: id in FromKeys(RawLinks(batches)) <==>
      exists k :: 0 <= k < |Flatten(batches)| && Extract(Flatten(batches)[k].content) == Some(id)
    ensures forall id :: id in FromKeys(RawLinks(batches)) ==> |id| > 0 && '\n' !in id
  {
    RawLinksAreCaptures(batches);
    LinksOfMembers(Flatten(batches));
    LinksAreOneLine(Flatten(batches));
  }

  /**
   * The inner loop of `parse_messages`: every message of one batch, in order,
   * appends its extracted ID (if any) to the running list.
   */
  method AppendLinks(messages: seq<string>, batch: seq<Message>) returns (extended: seq<string>)
    ensures extended == messages + LinksOf(batch)
  {
    extended := messages;
    for k := 0 to |batch|
      invariant extended == messages + LinksOf(batch[..k])
    {
      assert batch[..k + 1][..k] == batch[..k] && batch[..k + 1][k] == batch[k];
      match Extract(batch[k].content) {
        case Some(id) => extended := extended + [id];
        case None =>
      }
    }
    assert batch[..|batch|] == batch;
  }

  /**
   * `parse_messages`: an error raised by the generator propagates; otherwise
   * the result is the raw list with later duplicates removed, so it has no
   * duplicates, holds exactly the extracted IDs, and keeps first-occurrence
   * order (`messages[::1]` is the whole list, unreversed).
   */
  method ParseMessages(generated: Generated) returns (r: Result<seq<string>, RequestError>)
    ensures generated.failure.Some? ==> r == Failure(generated.failure.value)
    ensures generated.failure.None? ==> r == Success(FromKeys(RawLinks(generated.batches)))
    ensures r.Success? ==> Distinct(r.value)
    ensures r.Success? ==> forall id :: id in r.value <==> id in RawLinks(generated.batches)
  {
    if generated.failure.Some? {
      return Failure(generated.failure.value);
    }
    var batches := generated.batches;
    var messages: seq<string> := [];
    for b := 0 to |batches|
      invariant messages == RawLinks(batches[..b])
    {
      messages := AppendLinks(messages, batches[b]);
      assert batches[..b + 1][..b] == batches[..b];
    }
    assert batches[..|batches|] == batches;
    r := Success(FromKeys(messages[0..]));
  }
}
