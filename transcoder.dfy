/** Rebuilding one source message as the payload sent to its destination channel: the
    re-uploaded attachments and the embed list headed by an author block. */
module Transcoder {
  import opened Wrappers
  import opened Discord

  /** The placeholder icon used for an author without an avatar. */
  const DefaultAvatarUrl: string := "https://cdn.discordapp.com/embed/avatars/1.png"

  /** What a request for an attachment URL comes back with. */
  datatype HttpResponse = HttpResponse(status: nat, body: Bytes)

  /** The message-creation payload: one file per re-uploaded attachment, and the embeds. */
  datatype Payload = Payload(files: seq<Bytes>, embeds: seq<Embed>)

  /** `avatarURL() ?? DefaultAvatarUrl` */
  function IconUrl(author: User): (url: string)
    ensures author.avatarUrl.Some? ==> url == author.avatarUrl.value
    ensures author.avatarUrl.None? ==> url == DefaultAvatarUrl
  {
    match author.avatarUrl
    case Some(url) => url
    case None => DefaultAvatarUrl
  }

  /** The embed that carries the source message's author, creation time and content. */
  function AuthorBlock(m: Message): (e: Embed)
    ensures e.author == Some(EmbedAuthor(m.author.username, Some(IconUrl(m.author))))
    ensures e.description == Some(m.content) && e.timestamp == Some(Instant(m.createdTimestamp))
    ensures e.title == None && e.url == None && e.fields == []
  {
    Embed(
      title := None,
      description := Some(m.content),
      url := None,
      timestamp := Some(Instant(m.createdTimestamp)),
      author := Some(EmbedAuthor(m.author.username, Some(IconUrl(m.author)))),
      fields := [])
  }

  /** The payload for message `m`, given the downloaded bodies of its attachments. */
  function Transcode(m: Message, files: seq<Bytes>): (p: Payload)
    ensures p.files == files
    ensures |p.embeds| == 1 + |m.embeds| && p.embeds[1..] == m.embeds
    ensures p.embeds[0].author.Some?
    ensures p.embeds[0].author.value.name == m.author.username
    ensures p.embeds[0].author.value.iconUrl
         == Some(if m.author.avatarUrl.Some? then m.author.avatarUrl.value else DefaultAvatarUrl)
    ensures p.embeds[0].description == Some(m.content)
    ensures p.embeds[0].timestamp == Some(Instant(m.createdTimestamp))
    ensures p.embeds[0].title == None && p.embeds[0].url == None && p.embeds[0].fields == []
  {
    Payload(files, [AuthorBlock(m)] + m.embeds)
  }

  /** What a replayed message still tells of its source. */
  datatype Replay = Replay(
    username: string,
    iconUrl: string,
    content: string,
    createdAt: Instant,
    embeds: seq<Embed>,
    files: seq<Bytes>)

  /** Reads the source message's author, content, creation time and own embeds back off a
      payload whose first embed is an author block. */
  function ReadBack(p: Payload): Option<Replay> {
    if p.embeds == [] then None
    else
      match p.embeds[0]
      case Embed(_, Some(content), _, Some(at), Some(EmbedAuthor(name, Some(icon))), _) =>
        Some(Replay(name, icon, content, at, p.embeds[1..], p.files))
      case _ => None
  }

  /** Nothing the destination needs of a source message is lost in its payload. */
  lemma TranscodeReadBack(m: Message, files: seq<Bytes>)
    ensures ReadBack(Transcode(m, files))
         == Some(Replay(m.author.username, IconUrl(m.author), m.content,
                        Instant(m.createdTimestamp), m.embeds, files))
  {
  }

  /** The URLs of a message's attachments, in order. */
  function Urls(attachments: seq<Attachment>): (urls: seq<string>)
    ensures |urls| == |attachments|
    ensures forall i :: 0 <= i < |attachments| ==> urls[i] == attachments[i].url
  {
    if attachments == [] then [] else [attachments[0].url] + Urls(attachments[1..])
  }

  /** Downloading every attachment of a message: one body per attachment, in the
      attachments' order. A URL with no response (a network failure) fails the whole
      download, reported by the first such URL. A response is used whatever its status. */
  function DownloadAll(responses: map<string, HttpResponse>, attachments: seq<Attachment>)
    : (r: Result<seq<Bytes>, string>)
    ensures r.Success? <==> forall i :: 0 <= i < |attachments| ==> attachments[i].url in responses
    ensures r.Success? ==>
      && |r.value| == |attachments|
      && forall i :: 0 <= i < |attachments| ==> r.value[i] == responses[attachments[i].url].body
    ensures r.Failure? ==> r.error !in responses && r.error in Urls(attachments)
  {
    if attachments == [] then Success([])
    else if attachments[0].url !in responses then Failure(attachments[0].url)
    else
      match DownloadAll(responses, attachments[1..])
      case Success(rest) => Success([responses[attachments[0].url].body] + rest)
      case Failure(url) => Failure(url)
  }

  /** The status of a response never matters: two sets of responses that reach the same URLs
      with the same bodies, whatever their statuses, give the same download. */
  lemma {:induction false} StatusIgnored(
    r1: map<string, HttpResponse>, r2: map<string, HttpResponse>, attachments: seq<Attachment>)
    requires r1.Keys == r2.Keys
    requires forall u :: u in r1 ==> r1[u].body == r2[u].body
    ensures DownloadAll(r1, attachments) == DownloadAll(r2, attachments)
  {
    if attachments != [] {
      StatusIgnored(r1, r2, attachments[1..]);
    }
  }
}
