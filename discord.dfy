/** The part of the chat platform the migration engine reads: the messages of a channel's
    history and the paginated history query `messages.fetch({ limit, after })`. */
module Discord {
  import opened Wrappers

  /** Message ids are the platform's snowflakes: positive and increasing with creation time. */
  type MessageId = nat
  type Bytes = seq<bv8>

  /** A point in time in milliseconds since the Unix epoch. It stands for the ISO-8601 string
      the platform exchanges; only that distinct instants give distinct strings is relied on. */
  datatype Instant = Instant(epochMillis: int)

  datatype User = User(username: string, avatarUrl: Option<string>)

  /** An attachment of a source message; `url` is what `attachment.toString()` yields. */
  datatype Attachment = Attachment(url: string)

  datatype EmbedAuthor = EmbedAuthor(name: string, iconUrl: Option<string>)
  datatype EmbedField = EmbedField(name: string, value: string)
  datatype Embed = Embed(
    title: Option<string>,
    description: Option<string>,
    url: Option<string>,
    timestamp: Option<Instant>,
    author: Option<EmbedAuthor>,
    fields: seq<EmbedField>)

  /** A source message; `url` is its permalink. */
  datatype Message = Message(
    id: MessageId,
    createdTimestamp: int,
    author: User,
    content: string,
    attachments: seq<Attachment>,
    embeds: seq<Embed>,
    url: string)

  /** The `limit` the channel loop asks for on every page. */
  const PageLimit: nat := 100

  function Min(a: int, b: int): int { if a < b then a else b }

  /** Message ids strictly ascending, oldest first. */
  predicate Ascending(ms: seq<Message>) {
    forall i, j :: 0 <= i < j < |ms| ==> ms[i].id < ms[j].id
  }

  /** A channel history as the platform keeps it: ids positive and strictly ascending. */
  predicate ValidHistory(h: seq<Message>) {
    && (forall i :: 0 <= i < |h| ==> 0 < h[i].id)
    && Ascending(h)
  }

  function Reversed<T>(s: seq<T>): (r: seq<T>)
    ensures |r| == |s|
    ensures forall i :: 0 <= i < |s| ==> r[i] == s[|s| - 1 - i]
  {
    if s == [] then [] else Reversed(s[1..]) + [s[0]]
  }

  lemma ReversedTwice<T>(s: seq<T>)
    ensures Reversed(Reversed(s)) == s
  {
    assert forall i :: 0 <= i < |s| ==> Reversed(Reversed(s))[i] == s[i];
  }

  /** The messages of `h` that are newer than the cursor `after`, oldest first. */
  function After(h: seq<Message>, after: MessageId): (r: seq<Message>)
    ensures |r| <= |h|
  {
    if h == [] then []
    else if after < h[0].id then [h[0]] + After(h[1..], after) else After(h[1..], after)
  }

  /** `messages.fetch({ limit, after })`: the `limit` oldest messages newer than `after`,
      returned newest first, as the platform's collection orders them. */
  function Fetch(h: seq<Message>, after: MessageId, limit: nat): (page: seq<Message>)
    ensures |page| <= limit
  {
    var newer := After(h, after);
    Reversed(newer[..Min(limit, |newer|)])
  }

  /** `firstKey()` of a fetched page: the id of its first (newest) message, if any. */
  function FirstKey(page: seq<Message>): (k: Option<MessageId>)
    ensures k.None? <==> page == []
    ensures k.Some? ==> k.value == page[0].id
  {
    if page == [] then None else Some(page[0].id)
  }

  /** The cursor `after` separates the `pos` oldest messages of `h` from the newer ones. */
  predicate SplitsAt(h: seq<Message>, pos: nat, after: MessageId)
    requires pos <= |h|
  {
    && (forall i :: 0 <= i < pos ==> h[i].id <= after)
    && (forall i :: pos <= i < |h| ==> after < h[i].id)
  }

  /** A cursor that separates the first `pos` messages leaves exactly the rest newer than it. */
  lemma {:induction false} AfterSplit(h: seq<Message>, pos: nat, after: MessageId)
    requires pos <= |h| && SplitsAt(h, pos, after)
    ensures After(h, after) == h[pos..]
  {
    if h != [] {
      assert SplitsAt(h[1..], if pos == 0 then 0 else pos - 1, after) by {
        assert forall i :: 0 <= i < |h| - 1 ==> h[1..][i] == h[i + 1];
      }
      if pos == 0 {
        AfterSplit(h[1..], 0, after);
        assert [h[0]] + h[1..] == h;
      } else {
        AfterSplit(h[1..], pos - 1, after);
      }
    }
  }

  /** The initial cursor `'0'` and the id of the newest message already seen both split the history. */
  lemma CursorSplits(h: seq<Message>, pos: nat)
    requires ValidHistory(h) && pos <= |h|
    ensures SplitsAt(h, pos, if pos == 0 then 0 else h[pos - 1].id)
  {
  }

  /** From a cursor that separates the first `pos` messages, the fetched page read newest-last
      is the next `Min(PageLimit, |h| - pos)` messages, it is empty exactly when none are left,
      and its first key is the newest of them. */
  lemma FetchNext(h: seq<Message>, pos: nat, after: MessageId)
    requires pos <= |h| && SplitsAt(h, pos, after)
    ensures Reversed(Fetch(h, after, PageLimit)) == h[pos..pos + Min(PageLimit, |h| - pos)]
    ensures Fetch(h, after, PageLimit) == [] <==> pos == |h|
    ensures pos < |h| ==> Fetch(h, after, PageLimit)[0] == h[pos + Min(PageLimit, |h| - pos) - 1]
  {
    AfterSplit(h, pos, after);
    var k := Min(PageLimit, |h| - pos);
    var run := h[pos..pos + k];
    assert After(h, after)[..k] == run;
    assert Fetch(h, after, PageLimit) == Reversed(run);
    ReversedTwice(run);
  }

  /** The page read back: entry `i` of a fetched page is entry `k - 1 - i` of the newer
      messages, `k` being the page's length. */
  lemma FetchIndexing(h: seq<Message>, after: MessageId, limit: nat)
    ensures var newer := After(h, after);
      var page := Fetch(h, after, limit);
      && |page| == Min(limit, |newer|)
      && forall i :: 0 <= i < |page| ==> page[i] == newer[|page| - 1 - i]
  {
  }

  /** The page the platform returns is newest first. */
  lemma FetchOrder(h: seq<Message>, after: MessageId, limit: nat)
    requires ValidHistory(h)
    ensures var page := Fetch(h, after, limit);
      forall i, j :: 0 <= i < j < |page| ==> page[j].id < page[i].id
  {
    var newer := After(h, after);
    var page := Fetch(h, after, limit);
    AfterAscending(h, after);
    FetchIndexing(h, after, limit);
    forall i, j | 0 <= i < j < |page| ensures page[j].id < page[i].id {
      var k := |page|;
      assert page[j] == newer[k - 1 - j] && page[i] == newer[k - 1 - i];
      assert newer[k - 1 - j].id < newer[k - 1 - i].id;
    }
  }

  /** The page holds only messages of the history newer than the cursor. */
  lemma FetchMembers(h: seq<Message>, after: MessageId, limit: nat)
    ensures var page := Fetch(h, after, limit);
      forall i :: 0 <= i < |page| ==> page[i] in h && after < page[i].id
  {
    var newer := After(h, after);
    var page := Fetch(h, after, limit);
    AfterMembers(h, after);
    FetchIndexing(h, after, limit);
    forall i | 0 <= i < |page| ensures page[i] in h && after < page[i].id {
      assert page[i] == newer[|page| - 1 - i];
      assert newer[|page| - 1 - i] in newer;
    }
  }

  /** An under-full page holds every message of the history newer than the cursor. */
  lemma FetchComplete(h: seq<Message>, after: MessageId, limit: nat)
    ensures var page := Fetch(h, after, limit);
      |page| < limit ==> forall m :: m in h && after < m.id ==> m in page
  {
    var newer := After(h, after);
    var page := Fetch(h, after, limit);
    AfterMembers(h, after);
    FetchIndexing(h, after, limit);
    if |page| < limit {
      forall m | m in h && after < m.id ensures m in page {
        assert m in newer;
        var j :| 0 <= j < |newer| && newer[j] == m;
        assert page[|page| - 1 - j] == m;
      }
    }
  }

  /** Exactly the messages of the history newer than the cursor are kept. */
  lemma {:induction false} AfterMembers(h: seq<Message>, after: MessageId)
    ensures forall m :: m in After(h, after) <==> m in h && after < m.id
  {
    if h != [] {
      AfterMembers(h[1..], after);
      assert forall m :: m in h <==> m == h[0] || m in h[1..];
    }
  }

  /** The messages newer than a cursor keep the history's ascending order. */
  lemma {:induction false} AfterAscending(h: seq<Message>, after: MessageId)
    requires ValidHistory(h)
    ensures Ascending(After(h, after))
  {
    if h != [] {
      assert ValidHistory(h[1..]) by {
        assert forall i :: 0 <= i < |h| - 1 ==> h[1..][i] == h[i + 1];
      }
      AfterAscending(h[1..], after);
      if after < h[0].id {
        AfterMembers(h[1..], after);
        var rest := After(h[1..], after);
        forall m | m in rest ensures h[0].id < m.id {
          var j :| 0 <= j < |h[1..]| && h[1..][j] == m;
          assert h[j + 1] == m;
        }
        AscendingCons(h[0], rest);
      }
    }
  }

  /** A message older than every message of an ascending run can go in front of it. */
  lemma AscendingCons(m: Message, rest: seq<Message>)
    requires Ascending(rest)
    requires forall n :: n in rest ==> m.id < n.id
    ensures Ascending([m] + rest)
  {
    var r := [m] + rest;
    forall i, j | 0 <= i < j < |r| ensures r[i].id < r[j].id {
      assert r[j] == rest[j - 1];
      if i > 0 {
        assert r[i] == rest[i - 1];
      } else {
        assert rest[j - 1] in rest;
      }
    }
  }
}
