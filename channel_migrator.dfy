/** Replaying one source channel into its destination channel: the paginated walk over the
    history, and one attempt per message that either sends its payload or records a warning. */
module ChannelMigrator {
  import opened Wrappers
  import opened Discord
  import opened Transcoder

  /** What the outside world answers: the response for each attachment URL that can be
      reached, and the payloads the destination refuses to accept. */
  datatype Environment = Environment(responses: map<string, HttpResponse>, rejected: set<Payload>)

  datatype SendError = AttachmentFetchFailed(attachmentUrl: string) | SendRejected

  /** The `{ error, url }` record written when a message cannot be replayed. */
  datatype Warning = Warning(error: SendError, url: string)

  datatype Outcome = Sent(payload: Payload) | Failed(warning: Warning)

  /** The line logged for every message before it is attempted. */
  datatype ProgressLine = ProgressLine(at: Instant, channel: string, author: string, content: string)

  /** What one channel's migration did: the cursor of every page request, the messages
      walked in order, the progress lines, the payloads sent and the warnings recorded. */
  datatype ChannelRun = ChannelRun(
    requests: seq<MessageId>,
    visited: seq<Message>,
    progress: seq<ProgressLine>,
    sent: seq<Payload>,
    warnings: seq<Warning>)

  /** The guarded unit for one message: download its attachments, build the payload, send it.
      A failure at either step sends nothing and yields the warning carrying the message's URL. */
  function Deliver(m: Message, env: Environment): (o: Outcome)
    ensures o.Sent? <==>
      && DownloadAll(env.responses, m.attachments).Success?
      && Transcode(m, DownloadAll(env.responses, m.attachments).value) !in env.rejected
    ensures o.Sent? ==> o.payload == Transcode(m, DownloadAll(env.responses, m.attachments).value)
    ensures o.Failed? ==> o.warning.url == m.url
    ensures o.Failed? ==>
      (o.warning.error.AttachmentFetchFailed? <==> DownloadAll(env.responses, m.attachments).Failure?)
    ensures o.Failed? && o.warning.error.AttachmentFetchFailed? ==>
      DownloadAll(env.responses, m.attachments) == Failure(o.warning.error.attachmentUrl)
  {
    match DownloadAll(env.responses, m.attachments)
    case Failure(url) => Failed(Warning(AttachmentFetchFailed(url), m.url))
    case Success(files) =>
      var payload := Transcode(m, files);
      if payload in env.rejected then Failed(Warning(SendRejected, m.url)) else Sent(payload)
  }

  /** The line `console.log` writes before the message is attempted: its creation time, the
      destination channel, the author and the content. */
  function ProgressFor(m: Message, channel: string): (line: ProgressLine)
    ensures line.at == Instant(m.createdTimestamp) && line.channel == channel
    ensures line.author == m.author.username && line.content == m.content
  {
    ProgressLine(Instant(m.createdTimestamp), channel, m.author.username, m.content)
  }

  /** The progress lines logged when the messages `ms` are attempted in order: one per message. */
  function ProgressLog(ms: seq<Message>, channel: string): (lines: seq<ProgressLine>)
    ensures |lines| == |ms|
  {
    seq(|ms|, i requires 0 <= i < |ms| => ProgressFor(ms[i], channel))
  }

  /** What attempting each of the messages `ms` comes to, in order. */
  function Outcomes(ms: seq<Message>, env: Environment): (os: seq<Outcome>)
    ensures |os| == |ms|
  {
    seq(|ms|, i requires 0 <= i < |ms| => Deliver(ms[i], env))
  }

  /** The payloads among the outcomes `os`, in order. */
  function Sends(os: seq<Outcome>): (sent: seq<Payload>)
    ensures |sent| <= |os|
  {
    if os == [] then []
    else Sends(os[..|os| - 1]) + (if Last(os).Sent? then [Last(os).payload] else [])
  }

  /** The warnings among the outcomes `os`, in order. */
  function Warnings(os: seq<Outcome>): (warnings: seq<Warning>)
    ensures |warnings| <= |os|
  {
    if os == [] then []
    else Warnings(os[..|os| - 1]) + (if Last(os).Failed? then [Last(os).warning] else [])
  }

  /** The payloads sent when the messages `ms` are attempted in order. */
  function SentLog(ms: seq<Message>, env: Environment): seq<Payload> {
    Sends(Outcomes(ms, env))
  }

  /** The warnings recorded when the messages `ms` are attempted in order. */
  function WarningLog(ms: seq<Message>, env: Environment): seq<Warning> {
    Warnings(Outcomes(ms, env))
  }

  lemma OutcomesSplit(a: seq<Message>, b: seq<Message>, env: Environment)
    ensures Outcomes(a + b, env) == Outcomes(a, env) + Outcomes(b, env)
  {
    assert forall i :: 0 <= i < |a + b| ==> Outcomes(a + b, env)[i] == (Outcomes(a, env) + Outcomes(b, env))[i];
  }

  lemma {:induction false} SendsSplit(a: seq<Outcome>, b: seq<Outcome>)
    ensures Sends(a + b) == Sends(a) + Sends(b)
    ensures Warnings(a + b) == Warnings(a) + Warnings(b)
  {
    if b == [] {
      assert a + b == a;
    } else {
      var init := b[..|b| - 1];
      assert (a + b)[..|a + b| - 1] == a + init;
      assert Last(a + b) == Last(b);
      SendsSplit(a, init);
    }
  }

  /** The sends and warnings of a sequence of messages are those of its parts, in order:
      what happens to one message does not depend on its neighbours. */
  lemma LogsSplit(a: seq<Message>, b: seq<Message>, env: Environment)
    ensures SentLog(a + b, env) == SentLog(a, env) + SentLog(b, env)
    ensures WarningLog(a + b, env) == WarningLog(a, env) + WarningLog(b, env)
  {
    OutcomesSplit(a, b, env);
    SendsSplit(Outcomes(a, env), Outcomes(b, env));
  }

  /** Every attempted message is either sent or warned about, never both and never neither. */
  lemma {:induction false} EveryOutcomeAccounted(os: seq<Outcome>)
    ensures |Sends(os)| + |Warnings(os)| == |os|
  {
    if os != [] {
      EveryOutcomeAccounted(os[..|os| - 1]);
    }
  }

  /** Every attempted message is either sent or warned about, never both and never neither. */
  lemma EveryMessageAccounted(ms: seq<Message>, env: Environment)
    ensures |SentLog(ms, env)| + |WarningLog(ms, env)| == |ms|
  {
    EveryOutcomeAccounted(Outcomes(ms, env));
  }

  /** Attempting one more message extends the logs by that message's outcome alone. */
  lemma LogsAppend(ms: seq<Message>, m: Message, env: Environment)
    ensures SentLog(ms + [m], env)
         == SentLog(ms, env) + (if Deliver(m, env).Sent? then [Deliver(m, env).payload] else [])
    ensures WarningLog(ms + [m], env)
         == WarningLog(ms, env) + (if Deliver(m, env).Failed? then [Deliver(m, env).warning] else [])
  {
    OutcomesSplit(ms, [m], env);
    var os := Outcomes(ms + [m], env);
    assert os[..|ms|] == Outcomes(ms, env);
  }

  lemma ProgressAppend(ms: seq<Message>, m: Message, channel: string)
    ensures ProgressLog(ms + [m], channel) == ProgressLog(ms, channel) + [ProgressFor(m, channel)]
  {
    assert forall i :: 0 <= i < |ms| + 1 ==>
      ProgressLog(ms + [m], channel)[i] == (ProgressLog(ms, channel) + [ProgressFor(m, channel)])[i];
  }

  /** A message that fails sends nothing and adds exactly its own warning; the sends and
      warnings of the messages before and after it are unaffected. */
  lemma FailureIsolated(before: seq<Message>, m: Message, after: seq<Message>, env: Environment)
    requires Deliver(m, env).Failed?
    ensures SentLog(before + [m] + after, env) == SentLog(before, env) + SentLog(after, env)
    ensures WarningLog(before + [m] + after, env)
         == WarningLog(before, env) + [Deliver(m, env).warning] + WarningLog(after, env)
  {
    LogsAppend([], m, env);
    assert [] + [m] == [m];
    LogsSplit(before, [m], env);
    LogsSplit(before + [m], after, env);
    assert SentLog(before + [m], env) == SentLog(before, env);
    assert WarningLog(before + [m], env) == WarningLog(before, env) + [Deliver(m, env).warning];
  }

  /** A message that succeeds adds exactly its payload to the sends and no warning. */
  lemma SuccessRecorded(before: seq<Message>, m: Message, after: seq<Message>, env: Environment)
    requires Deliver(m, env).Sent?
    ensures SentLog(before + [m] + after, env)
         == SentLog(before, env) + [Deliver(m, env).payload] + SentLog(after, env)
    ensures WarningLog(before + [m] + after, env) == WarningLog(before, env) + WarningLog(after, env)
  {
    LogsAppend([], m, env);
    assert [] + [m] == [m];
    LogsSplit(before, [m], env);
    LogsSplit(before + [m], after, env);
    assert SentLog(before + [m], env) == SentLog(before, env) + [Deliver(m, env).payload];
    assert WarningLog(before + [m], env) == WarningLog(before, env);
  }

  /** The page requests of a complete walk over history `h`: the first uses the cursor 0, each
      later one the first key (the newest id) of the page before it, which is never empty; the
      last page is empty; and there is one request per page of `PageLimit` messages, rounded up,
      plus the final empty one. */
  ghost predicate Paginated(h: seq<Message>, requests: seq<MessageId>) {
    && |requests| == (|h| + 99) / 100 + 1
    && requests[0] == 0
    && Chained(h, requests)
    && Fetch(h, Last(requests), PageLimit) == []
  }

  /** Each request after the first uses the first key of the page the one before it fetched,
      and that page is not empty. */
  ghost predicate Chained(h: seq<Message>, requests: seq<MessageId>) {
    forall k :: 0 <= k < |requests| - 1 ==>
      Fetch(h, requests[k], PageLimit) != [] && requests[k + 1] == Fetch(h, requests[k], PageLimit)[0].id
  }

  /** A further request that uses the first key of the last non-empty page keeps the chain. */
  lemma ChainedExtend(h: seq<Message>, requests: seq<MessageId>, next: MessageId)
    requires Chained(h, requests)
    requires requests != [] ==>
      Fetch(h, Last(requests), PageLimit) != [] && next == Fetch(h, Last(requests), PageLimit)[0].id
    ensures Chained(h, requests + [next])
  {
    var r := requests + [next];
    forall k | 0 <= k < |r| - 1
      ensures Fetch(h, r[k], PageLimit) != [] && r[k + 1] == Fetch(h, r[k], PageLimit)[0].id
    {
      assert r[k] == requests[k];
      if k < |requests| - 1 {
        assert r[k + 1] == requests[k + 1];
      }
    }
  }

  function Last<T>(s: seq<T>): T
    requires s != []
  {
    s[|s| - 1]
  }

  /** Pages that are full until the last non-empty one, followed by an empty one, number the
      messages divided by the page size, rounded up, plus one. */
  lemma RequestCount(n: nat, r: nat)
    requires 1 <= r && n <= 100 * r - 100 && 100 * r - 200 < n
    ensures r == (n + 99) / 100 + 1
  {
  }

  /** What the walk over one channel has produced so far: the messages handed on, in order,
      and what logging and attempting them gave. */
  datatype ChannelLog = ChannelLog(
    visited: seq<Message>,
    progress: seq<ProgressLine>,
    sent: seq<Payload>,
    warnings: seq<Warning>)

  /** The progress lines, sends and warnings of `log` are those of attempting its visited
      messages in order. */
  ghost predicate Replayed(log: ChannelLog, destName: string, env: Environment) {
    && log.progress == ProgressLog(log.visited, destName)
    && log.sent == SentLog(log.visited, env)
    && log.warnings == WarningLog(log.visited, env)
  }

  /** The walk `for (const [_, message] of messages.reverse())` over one page, already put
      oldest first: each message is logged, then attempted, and its outcome recorded. */
  method ReplayPage(ordered: seq<Message>, destName: string, env: Environment, log: ChannelLog)
    returns (next: ChannelLog)
    requires Replayed(log, destName, env)
    ensures Replayed(next, destName, env)
    ensures next.visited == log.visited + ordered
  {
    next := log;
    for i := 0 to |ordered|
      invariant Replayed(next, destName, env)
      invariant next.visited == log.visited + ordered[..i]
    {
      var message := ordered[i];
      LogsAppend(next.visited, message, env);
      ProgressAppend(next.visited, message, destName);
      assert ordered[..i + 1] == ordered[..i] + [message];
      var progress := next.progress + [ProgressFor(message, destName)];
      match Deliver(message, env) {
        case Sent(payload) =>
          next := next.(progress := progress, sent := next.sent + [payload]);
        case Failed(warning) =>
          next := next.(progress := progress, warnings := next.warnings + [warning]);
      }
      next := next.(visited := next.visited + [message]);
    }
    assert ordered[..|ordered|] == ordered;
  }

  /** The variables of the `do … while` loop: the requests issued so far (the `after` cursor of
      each), the cursor `messageId`, whether the loop goes on, and what the pages handed on
      have produced. */
  datatype Cursor = Cursor(
    requests: seq<MessageId>,
    messageId: Option<MessageId>,
    more: bool,
    log: ChannelLog)

  /** The state of the walk at the head of the loop: the messages handed on so far are a
      prefix of the history, one request per page has been issued, the cursor is on the
      newest message handed on, and `more` is false exactly after a page came back empty. */
  ghost predicate Walking(h: seq<Message>, c: Cursor) {
    Positioned(h, c) && Chained(h, c.requests)
  }

  /** Everything `Walking` says except that each request uses the first key of the page before. */
  ghost predicate Positioned(h: seq<Message>, c: Cursor) {
    var pos := |c.log.visited|;
    && pos <= |h| && c.log.visited == h[..pos]
    && pos == Min(100 * |c.requests|, |h|)
    && (c.more && c.requests == [] ==> c.messageId == None)
    && (c.more && c.requests != [] ==>
          && 0 < pos && c.messageId == Some(h[pos - 1].id)
          && 100 * |c.requests| - 100 < pos
          && Fetch(h, Last(c.requests), PageLimit) != []
          && Fetch(h, Last(c.requests), PageLimit)[0].id == h[pos - 1].id)
    && (!c.more ==>
          && pos == |h| && c.requests != []
          && |h| <= 100 * |c.requests| - 100 && 100 * |c.requests| - 200 < |h|
          && Fetch(h, Last(c.requests), PageLimit) == [])
    && (c.requests != [] ==> c.requests[0] == 0)
  }

  /** The cursor a request is made with: `messageId ?? '0'`. */
  function StartAfter(c: Cursor): (after: MessageId)
    ensures c.messageId.None? ==> after == 0
    ensures c.messageId.Some? ==> c.messageId == Some(after)
  {
    if c.messageId.Some? then c.messageId.value else 0
  }

  /** One pass of the loop body: the page fetched from the cursor is the next run of messages,
      and issuing its request, moving the cursor to its first key and handing its messages on
      keeps the walk's state. */
  lemma WalkStep(h: seq<Message>, c: Cursor, log: ChannelLog)
    requires ValidHistory(h) && Walking(h, c) && c.more
    requires log.visited == c.log.visited + Reversed(Fetch(h, StartAfter(c), PageLimit))
    ensures var page := Fetch(h, StartAfter(c), PageLimit);
      && (FirstKey(page).Some? ==> 0 < |page|)
      && Walking(h, Cursor(c.requests + [StartAfter(c)], FirstKey(page), FirstKey(page).Some?, log))
  {
    var after := StartAfter(c);
    var page := Fetch(h, after, PageLimit);
    ChainedExtend(h, c.requests, after);
    if |c.log.visited| < |h| {
      CursorSplits(h, |c.log.visited|);
      WalkOn(h, c.requests, c.log.visited, after, log);
      assert FirstKey(page) == Some(page[0].id);
    } else {
      WalkEnd(h, c, log, after, page);
      assert FirstKey(page) == None;
    }
  }

  /** A pass with messages left: from a cursor that separates the `pos` messages handed on,
      a multiple of the page size, the page is non-empty and the cursor moves to its newest. */
  lemma WalkOn(h: seq<Message>, requests: seq<MessageId>, visited: seq<Message>, after: MessageId, log: ChannelLog)
    requires ValidHistory(h) && |visited| < |h| && visited == h[..|visited|]
    requires |visited| == 100 * |requests| && SplitsAt(h, |visited|, after)
    requires requests != [] ==> requests[0] == 0
    requires requests == [] ==> after == 0
    requires log.visited == visited + Reversed(Fetch(h, after, PageLimit))
    ensures var page := Fetch(h, after, PageLimit);
      && page != [] && Positioned(h, Cursor(requests + [after], Some(page[0].id), true, log))
  {
    var pos := |visited|;
    var k := Min(100, |h| - pos);
    FetchNext(h, pos, after);
    PrefixExtend(h, pos, k);
    var page := Fetch(h, after, PageLimit);
    var d := Cursor(requests + [after], Some(page[0].id), true, log);
    assert |d.log.visited| == pos + k == Min(100 * |d.requests|, |h|);
    assert d.log.visited == h[..pos + k];
    assert page[0].id == h[pos + k - 1].id;
    assert Last(d.requests) == after && d.requests[0] == 0;
  }

  /** A pass with no message left: the page is empty and the walk stops. */
  lemma WalkEnd(h: seq<Message>, c: Cursor, log: ChannelLog, after: MessageId, page: seq<Message>)
    requires ValidHistory(h) && Positioned(h, c) && c.more && |c.log.visited| == |h|
    requires after == StartAfter(c) && page == Fetch(h, after, PageLimit)
    requires log.visited == c.log.visited + Reversed(page)
    ensures page == [] && Positioned(h, Cursor(c.requests + [after], None, false, log))
  {
    var pos := |c.log.visited|;
    CursorSplits(h, pos);
    FetchNext(h, pos, after);
    assert Reversed(page) == [];
  }

  /** A walk that has stopped has handed on the whole history and made exactly the requests
      the pagination calls for. */
  lemma WalkDone(h: seq<Message>, c: Cursor)
    requires Walking(h, c) && !c.more
    ensures c.log.visited == h && Paginated(h, c.requests)
  {
    RequestCount(|h|, |c.requests|);
    assert h[..|h|] == h;
  }

  lemma PrefixExtend<T>(s: seq<T>, pos: nat, k: nat)
    requires pos + k <= |s|
    ensures s[..pos] + s[pos..pos + k] == s[..pos + k]
  {
  }

  /** One pass of the loop body: fetch up to `PageLimit` messages after the cursor, move the
      cursor to the page's first key, and attempt the page's messages oldest first. */
  method NextPage(h: seq<Message>, destName: string, env: Environment, c: Cursor) returns (d: Cursor)
    requires ValidHistory(h) && Walking(h, c) && c.more
    requires Replayed(c.log, destName, env)
    ensures Walking(h, d) && Replayed(d.log, destName, env)
    ensures d.requests == c.requests + [StartAfter(c)]
    ensures d.more ==> |c.log.visited| < |d.log.visited|
  {
    var after := StartAfter(c);
    var messages := Fetch(h, after, PageLimit);
    var messageId := FirstKey(messages);
    var log := ReplayPage(Reversed(messages), destName, env, c.log);
    d := Cursor(c.requests + [after], messageId, messageId.Some?, log);
    WalkStep(h, c, log);
  }

  /** `run` is the complete migration of history `h` into the channel named `destName`: its
      requests paginate `h`, every message is handed on once, oldest first, and the progress
      lines, sends and warnings are those of attempting them in that order. */
  ghost predicate Migrated(run: ChannelRun, h: seq<Message>, destName: string, env: Environment) {
    && Paginated(h, run.requests)
    && run.visited == h
    && run.progress == ProgressLog(h, destName)
    && run.sent == SentLog(h, env)
    && run.warnings == WarningLog(h, env)
  }

  /** The `do … while (messageId)` loop of one channel: pages are fetched and handed on until
      one comes back empty. */
  method MigrateChannel(h: seq<Message>, destName: string, env: Environment) returns (run: ChannelRun)
    requires ValidHistory(h)
    ensures Migrated(run, h, destName, env)
  {
    var c := Cursor([], None, true, ChannelLog([], [], [], []));
    while c.more
      invariant Walking(h, c) && Replayed(c.log, destName, env)
      decreases |h| - |c.log.visited|, if c.more then 1 else 0
    {
      c := NextPage(h, destName, env, c);
    }
    WalkDone(h, c);
    run := ChannelRun(c.requests, c.log.visited, c.log.progress, c.log.sent, c.log.warnings);
  }

  /** The cursors of a complete walk strictly increase: each page is newer than the cursor it
      was requested with. */
  lemma CursorsAscending(h: seq<Message>, requests: seq<MessageId>)
    requires Paginated(h, requests)
    ensures forall k :: 0 <= k < |requests| - 1 ==> requests[k] < requests[k + 1]
  {
    forall k | 0 <= k < |requests| - 1 ensures requests[k] < requests[k + 1] {
      FetchMembers(h, requests[k], PageLimit);
    }
  }

  /** An empty channel costs exactly one request, with the cursor 0, and sends and warns
      about nothing. */
  lemma EmptyChannel(run: ChannelRun, destName: string, env: Environment)
    requires Migrated(run, [], destName, env)
    ensures run.requests == [0]
    ensures run.visited == [] && run.progress == [] && run.sent == [] && run.warnings == []
  {
  }
}
