/**
 * The chat reader (`Discord.generate_messages`): checks the channel type, then
 * walks the channel history backwards from `start + 1`, one page of at most
 * 100 messages older than a cursor at a time, keeping the messages whose ID is
 * at least `end`.
 *
 * The network is two oracles, each a response that `Http.Request` classifies:
 * `channel`, the answer to the channel lookup (its body is the channel type),
 * and `page`, the answer to a message listing for each cursor.
 */
module ChatReader {
  import opened Wrappers
  import opened Http

  /** `DISCORD_API_MESSAGE_LIMIT`: the page size asked for and the stop threshold. */
  const MessageLimit: nat := 100

  /** GUILD_TEXT and GUILD_NEWS, the only channel types that are scanned. */
  const ScannedChannelTypes: set<int> := {0, 5}

  /** A message: its snowflake ID (as an integer) and its text. */
  datatype Message = Message(id: int, content: string)

  /**
   * What the generator produced before it finished or raised: the batches it
   * yielded, the `before` cursor of every listing request it sent, in order,
   * and the error it raised, if any.
   */
  datatype Generated = Generated(batches: seq<seq<Message>>, cursors: seq<int>, failure: Option<RequestError>)

  /** The listing endpoint answers with messages strictly older than the cursor. */
  ghost predicate OlderThanCursor(page: int -> Response<seq<Message>>)
  {
    forall c: int, k: int :: 0 <= k < |page(c).body| ==> page(c).body[k].id < c
  }

  /** `list(filter(lambda m: int(m["id"]) >= end, messages))`. */
  function KeepFrom(messages: seq<Message>, end: int): (kept: seq<Message>)
    ensures |kept| <= |messages|
    ensures forall k :: 0 <= k < |kept| ==> kept[k].id >= end
  {
    if messages == [] then []
    else (if messages[0].id >= end then [messages[0]] else []) + KeepFrom(messages[1..], end)
  }

  /** The filter keeps exactly the messages whose ID is at least `end`. */
  lemma {:induction false} KeepFromMembers(messages: seq<Message>, end: int)
    ensures forall m :: m in KeepFrom(messages, end) <==> m in messages && m.id >= end
  {
    if messages != [] {
      KeepFromMembers(messages[1..], end);
      assert messages == [messages[0]] + messages[1..];
    }
  }

  /** The filter keeps page order: filtering a concatenation concatenates the filtered parts. */
  lemma {:induction false} KeepFromAppend(a: seq<Message>, b: seq<Message>, end: int)
    ensures KeepFrom(a + b, end) == KeepFrom(a, end) + KeepFrom(b, end)
  {
    if a != [] {
      assert (a + b)[1..] == a[1..] + b;
      KeepFromAppend(a[1..], b, end);
    } else {
      assert a + b == b;
    }
  }

  /** Batches and cursors already produced, followed by what a later part of the scan produces. */
  function Then(batches: seq<seq<Message>>, cursors: seq<int>, rest: Generated): Generated
  {
    Generated(batches + rest.batches, cursors + rest.cursors, rest.failure)
  }

  /** The loop of the generator from cursor `cursor` on. */
  function Scan(page: int -> Response<seq<Message>>, cursor: int, end: int): (g: Generated)
    requires OlderThanCursor(page)
    decreases cursor - end
  {
    if page(cursor).status != 200 then Generated([], [cursor], Some(Classify(page(cursor)).error))
    else
      var messages := page(cursor).body;
      var kept := KeepFrom(messages, end);
      if |kept| < MessageLimit then Generated([kept], [cursor], None)
      else
        var next := kept[|kept| - 1].id;
        KeepFromMembers(messages, end);
        assert kept[|kept| - 1] in messages;
        Then([kept], [cursor], Scan(page, next, end))
  }

  /** The whole generator: the channel check, then the scan from `start + 1`. */
  function Generate(channel: Response<int>, page: int -> Response<seq<Message>>, start: int, end: int): (g: Generated)
    requires OlderThanCursor(page)
  {
    match Classify(channel)
    case Failure(e) => Generated([], [], Some(e))
    case Success(channelType) =>
      if channelType in ScannedChannelTypes then Scan(page, start + 1, end)
      else Generated([], [], Some(InvalidChannelType))
  }

  /** `generate_messages`, run to the end as `list(generator)` does. */
  method GenerateMessages(channel: Response<int>, page: int -> Response<seq<Message>>, start: int, end: int)
    returns (g: Generated)
    requires OlderThanCursor(page)
    ensures g == Generate(channel, page, start, end)
  {
    var info, _ := Request(_ => channel);
    if info.Failure? {
      return Generated([], [], Some(info.error));
    }
    if info.value !in ScannedChannelTypes {
      return Generated([], [], Some(InvalidChannelType));
    }
    g := ReadHistory(page, start + 1, end);
  }

  /** The `while True` loop of `generate_messages`, from the cursor `first` on. */
  method ReadHistory(page: int -> Response<seq<Message>>, first: int, end: int) returns (g: Generated)
    requires OlderThanCursor(page)
    ensures g == Scan(page, first, end)
  {
    var cursor := first;
    var batches: seq<seq<Message>> := [];
    var cursors: seq<int> := [];
    while true
      invariant Scan(page, first, end) == Then(batches, cursors, Scan(page, cursor, end))
      decreases cursor - end
    {
      ScanUnfold(page, cursor, end);
      ghost var rest := Scan(page, cursor, end);
      var response, _ := Request(_ => page(cursor));
      assert response == Classify(page(cursor));
      assert batches + [] == batches;
      ghost var earlier := cursors;
      cursors := cursors + [cursor];
      if response.Failure? {
        return Generated(batches, cursors, Some(response.error));
      }
      var messages := KeepFrom(response.value, end);
      ghost var done := batches;
      batches := batches + [messages];
      if |messages| < MessageLimit {
        break;
      }
      ghost var previous := cursor;
      cursor := messages[|messages| - 1].id;
      ghost var next := Scan(page, cursor, end);
      assert done + ([messages] + next.batches) == batches + next.batches;
      assert earlier + ([previous] + next.cursors) == cursors + next.cursors;
    }
    g := Generated(batches, cursors, None);
  }

  /**
   * One step of the scan: a failed request ends it, a short filtered page is
   * the last batch, and a full one is followed by the scan from the ID of its
   * last message.
   */
  lemma ScanUnfold(page: int -> Response<seq<Message>>, cursor: int, end: int)
    requires OlderThanCursor(page)
    ensures var g := Scan(page, cursor, end);
      var kept := KeepFrom(page(cursor).body, end);
      && (page(cursor).status != 200 ==> g == Generated([], [cursor], Some(Classify(page(cursor)).error)))
      && (page(cursor).status == 200 && |kept| < MessageLimit ==> g == Generated([kept], [cursor], None))
      && (page(cursor).status == 200 && |kept| >= MessageLimit ==>
            var rest := Scan(page, kept[|kept| - 1].id, end);
            && end <= kept[|kept| - 1].id < cursor
            && g.batches == [kept] + rest.batches
            && g.cursors == [cursor] + rest.cursors
            && g.failure == rest.failure)
  {
    var kept := KeepFrom(page(cursor).body, end);
    if page(cursor).status == 200 && |kept| >= MessageLimit {
      KeepFromMembers(page(cursor).body, end);
      assert kept[|kept| - 1] in page(cursor).body;
    }
  }

  /**
   * Every request but a failed last one yields exactly one batch, the first
   * request uses the starting cursor, a scan that did not fail ends with a
   * short (possibly empty) batch, and a failure is that of the last request.
   */
  lemma {:induction false} ScanCounts(page: int -> Response<seq<Message>>, cursor: int, end: int)
    requires OlderThanCursor(page)
    ensures var g := Scan(page, cursor, end);
      && |g.cursors| == |g.batches| + (if g.failure.Some? then 1 else 0)
      && g.cursors[0] == cursor
      && (g.failure.None? ==> |g.batches[|g.batches| - 1]| < MessageLimit)
      && (g.failure.Some? ==> Classify(page(g.cursors[|g.cursors| - 1])) == Failure(g.failure.value))
    decreases cursor - end
  {
    ScanUnfold(page, cursor, end);
    var kept := KeepFrom(page(cursor).body, end);
    if page(cursor).status == 200 && |kept| >= MessageLimit {
      ScanCounts(page, kept[|kept| - 1].id, end);
    }
  }

  /** Batch `i` is the filtered answer to the request with cursor `i`, which succeeded. */
  lemma {:induction false} ScanBatchAt(page: int -> Response<seq<Message>>, cursor: int, end: int, i: nat)
    requires OlderThanCursor(page)
    requires i < |Scan(page, cursor, end).batches|
    ensures var g := Scan(page, cursor, end);
      i < |g.cursors| && page(g.cursors[i]).status == 200 && g.batches[i] == KeepFrom(page(g.cursors[i]).body, end)
    decreases cursor - end
  {
    ScanUnfold(page, cursor, end);
    if i > 0 {
      var kept := KeepFrom(page(cursor).body, end);
      ScanBatchAt(page, kept[|kept| - 1].id, end, i - 1);
    }
  }

  /** A batch followed by another request is full, and the next cursor is the ID of its last message. */
  lemma {:induction false} ScanChainAt(page: int -> Response<seq<Message>>, cursor: int, end: int, i: nat)
    requires OlderThanCursor(page)
    requires i + 1 < |Scan(page, cursor, end).cursors|
    ensures var g := Scan(page, cursor, end);
      i < |g.batches| && |g.batches[i]| >= MessageLimit && g.cursors[i + 1] == g.batches[i][|g.batches[i]| - 1].id
    decreases cursor - end
  {
    ScanUnfold(page, cursor, end);
    var kept := KeepFrom(page(cursor).body, end);
    var rest := Scan(page, kept[|kept| - 1].id, end);
    if i == 0 {
      ScanCounts(page, kept[|kept| - 1].id, end);
    } else {
      ScanChainAt(page, kept[|kept| - 1].id, end, i - 1);
    }
  }

  /** `limit=100`: the listing endpoint returns at most 100 messages per request. */
  ghost predicate WithinLimit(page: int -> Response<seq<Message>>)
  {
    forall c: int :: |page(c).body| <= MessageLimit
  }

  /** A filter that drops nothing returns the page itself. */
  lemma {:induction false} KeepFromAll(messages: seq<Message>, end: int)
    requires |KeepFrom(messages, end)| >= |messages|
    ensures KeepFrom(messages, end) == messages
  {
    if messages != [] {
      if messages[0].id < end {
        assert false;
      } else {
        KeepFromAll(messages[1..], end);
        assert messages == [messages[0]] + messages[1..];
      }
    }
  }

  /**
   * A full batch is followed by another request, even when it held the last
   * message in range; with at most 100 messages per page, the full batch is
   * the whole page and the next cursor is the ID of the page's last message.
   */
  lemma FullBatchContinues(page: int -> Response<seq<Message>>, cursor: int, end: int, i: nat)
    requires OlderThanCursor(page)
    requires i < |Scan(page, cursor, end).batches| && |Scan(page, cursor, end).batches[i]| >= MessageLimit
    ensures var g := Scan(page, cursor, end);
      && i + 1 < |g.cursors|
      && (WithinLimit(page) ==>
            var body := page(g.cursors[i]).body;
            |body| == MessageLimit && g.batches[i] == body && g.cursors[i + 1] == body[|body| - 1].id)
  {
    var g := Scan(page, cursor, end);
    ScanCounts(page, cursor, end);
    ScanChainAt(page, cursor, end, i);
    if WithinLimit(page) {
      ScanBatchAt(page, cursor, end, i);
      var c := g.cursors[i];
      assert |page(c).body| <= MessageLimit;
      var body := page(c).body;
      assert |body| <= |KeepFrom(body, end)|;
      KeepFromAll(body, end);
    }
  }

  /** Cursor `i` is at most the first cursor and strictly below every earlier one. */
  lemma {:induction false} ScanCursorsAt(page: int -> Response<seq<Message>>, cursor: int, end: int, i: nat)
    requires OlderThanCursor(page)
    requires i < |Scan(page, cursor, end).cursors|
    ensures var g := Scan(page, cursor, end);
      && g.cursors[i] <= cursor
      && (forall j :: 0 <= j < i ==> g.cursors[j] > g.cursors[i])
    decreases cursor - end
  {
    ScanUnfold(page, cursor, end);
    var g := Scan(page, cursor, end);
    if i > 0 {
      var kept := KeepFrom(page(cursor).body, end);
      var next := kept[|kept| - 1].id;
      var rest := Scan(page, next, end);
      ScanCursorsAt(page, next, end, i - 1);
      assert g.cursors[i] == rest.cursors[i - 1];
      forall j | 0 <= j < i
        ensures g.cursors[j] > g.cursors[i]
      {
        if j > 0 {
          assert g.cursors[j] == rest.cursors[j - 1];
        }
      }
    }
  }

  /** The messages of batch `i` have IDs from `end` up to, but excluding, cursor `i`. */
  lemma ScanMessagesAt(page: int -> Response<seq<Message>>, cursor: int, end: int, i: nat)
    requires OlderThanCursor(page)
    requires i < |Scan(page, cursor, end).batches|
    ensures var g := Scan(page, cursor, end);
      i < |g.cursors| && forall m :: m in g.batches[i] ==> end <= m.id < g.cursors[i]
  {
    ScanBatchAt(page, cursor, end, i);
    var g := Scan(page, cursor, end);
    var body := page(g.cursors[i]).body;
    KeepFromMembers(body, end);
    forall m | m in g.batches[i]
      ensures end <= m.id < g.cursors[i]
    {
      var k :| 0 <= k < |body| && body[k] == m;
      assert page(g.cursors[i]).body[k].id < g.cursors[i];
    }
  }

  /** Batch `i` is the filtered answer to request `i`, which succeeded. */
  ghost predicate BatchesArePages(g: Generated, page: int -> Response<seq<Message>>, end: int)
  {
    |g.batches| <= |g.cursors| &&
    forall i {:trigger g.batches[i]} :: 0 <= i < |g.batches| ==>
      page(g.cursors[i]).status == 200 && g.batches[i] == KeepFrom(page(g.cursors[i]).body, end)
  }

  /** Every batch followed by another request is full and moves the cursor to the ID of its last message. */
  ghost predicate FullBatchesMoveCursor(g: Generated)
  {
    |g.cursors| <= |g.batches| + 1 &&
    forall i {:trigger g.batches[i]} :: 0 <= i < |g.cursors| - 1 ==>
      |g.batches[i]| >= MessageLimit && g.cursors[i + 1] == g.batches[i][|g.batches[i]| - 1].id
  }

  /** The cursors strictly decrease and every yielded message lies between `end` and the cursor of its request. */
  ghost predicate CursorsDescend(g: Generated, cursor: int, end: int)
  {
    |g.batches| <= |g.cursors| &&
    (forall i, j :: 0 <= i < j < |g.cursors| ==> g.cursors[i] > g.cursors[j]) &&
    (forall i, m :: 0 <= i < |g.batches| && m in g.batches[i] ==> end <= m.id < g.cursors[i] <= cursor)
  }

  lemma ScanBatches(page: int -> Response<seq<Message>>, cursor: int, end: int)
    requires OlderThanCursor(page)
    ensures BatchesArePages(Scan(page, cursor, end), page, end)
  {
    var g := Scan(page, cursor, end);
    ScanCounts(page, cursor, end);
    forall i | 0 <= i < |g.batches|
      ensures page(g.cursors[i]).status == 200 && g.batches[i] == KeepFrom(page(g.cursors[i]).body, end)
    {
      ScanBatchAt(page, cursor, end, i);
    }
  }

  lemma ScanChain(page: int -> Response<seq<Message>>, cursor: int, end: int)
    requires OlderThanCursor(page)
    ensures FullBatchesMoveCursor(Scan(page, cursor, end))
  {
    var g := Scan(page, cursor, end);
    ScanCounts(page, cursor, end);
    forall i | 0 <= i < |g.cursors| - 1
      ensures |g.batches[i]| >= MessageLimit && g.cursors[i + 1] == g.batches[i][|g.batches[i]| - 1].id
    {
      ScanChainAt(page, cursor, end, i);
    }
  }

  lemma ScanBounds(page: int -> Response<seq<Message>>, cursor: int, end: int)
    requires OlderThanCursor(page)
    ensures CursorsDescend(Scan(page, cursor, end), cursor, end)
  {
    var g := Scan(page, cursor, end);
    ScanCounts(page, cursor, end);
    forall i, j | 0 <= i < j < |g.cursors|
      ensures g.cursors[i] > g.cursors[j]
    {
      ScanCursorsAt(page, cursor, end, j);
    }
    forall i, m | 0 <= i < |g.batches| && m in g.batches[i]
      ensures end <= m.id < g.cursors[i] <= cursor
    {
      ScanCursorsAt(page, cursor, end, i);
      ScanMessagesAt(page, cursor, end, i);
    }
  }

  /**
   * The channel gate: a failed channel lookup or a channel type other than
   * GUILD_TEXT and GUILD_NEWS raises before any message listing is requested;
   * otherwise the first listing asks for messages before `start + 1`.
   */
  lemma ChannelGate(channel: Response<int>, page: int -> Response<seq<Message>>, start: int, end: int)
    requires OlderThanCursor(page)
    ensures var g := Generate(channel, page, start, end);
      && (g.cursors == [] <==> channel.status != 200 || channel.body !in ScannedChannelTypes)
      && (g.cursors == [] ==> g.batches == [] && g.failure.Some?)
      && (channel.status == 200 && channel.body !in ScannedChannelTypes ==> g.failure == Some(InvalidChannelType))
      && (g.cursors != [] ==> g.cursors[0] == start + 1)
  {
    if channel.status == 200 && channel.body in ScannedChannelTypes {
      ScanCounts(page, start + 1, end);
    }
  }

  /** Every message the generator yields has an ID from `end` to `start`. */
  lemma GeneratedWithinRange(channel: Response<int>, page: int -> Response<seq<Message>>, start: int, end: int)
    requires OlderThanCursor(page)
    ensures var g := Generate(channel, page, start, end);
      forall i, m :: 0 <= i < |g.batches| && m in g.batches[i] ==> end <= m.id <= start
  {
    if channel.status == 200 && channel.body in ScannedChannelTypes {
      ScanBounds(page, start + 1, end);
    }
  }
}
