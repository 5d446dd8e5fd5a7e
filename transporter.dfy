/** The run as a whole: the mode argument picks between copying every readable text channel
    of one server under a new category of another, and deleting every channel of a server. */
module Transporter {
  import opened Wrappers
  import opened Discord
  import opened Transcoder
  import opened ChannelMigrator

  type ChannelId = nat
  type RoleId = nat

  /** The platform's channel kinds. */
  datatype ChannelType =
    | GuildText | DM | GuildVoice | GroupDM | GuildCategory | GuildAnnouncement
    | AnnouncementThread | PublicThread | PrivateThread | GuildStageVoice
    | GuildDirectory | GuildForum | GuildMedia

  datatype Permission = ViewChannel

  /** A permission overwrite: the permissions denied to one role, kept as data. */
  datatype Overwrite = Overwrite(id: RoleId, deny: seq<Permission>)

  /** A channel of a server. `viewable` says whether the bot may read it; `history` holds
      its messages oldest first and `posted` the payloads sent into it by the run. */
  datatype GuildChannel = GuildChannel(
    id: ChannelId,
    name: string,
    kind: ChannelType,
    viewable: bool,
    parent: Option<ChannelId>,
    overwrites: seq<Overwrite>,
    history: seq<Message>,
    posted: seq<Payload>)

  /** `sourceCh.viewable && sourceCh.type === ChannelType.GuildText` */
  predicate Eligible(c: GuildChannel): (b: bool)
    ensures b <==> c.viewable && c.kind == GuildText
  {
    c.viewable && c.kind == GuildText
  }

  /** The channels of `cs` that get copied, in order. */
  function EligibleChannels(cs: seq<GuildChannel>): (r: seq<GuildChannel>)
    ensures |r| <= |cs|
    ensures forall i :: 0 <= i < |r| ==> Eligible(r[i])
  {
    if cs == [] then []
    else EligibleChannels(cs[..|cs| - 1]) + (if Eligible(Last(cs)) then [Last(cs)] else [])
  }

  /** Exactly the eligible channels are copied. */
  lemma {:induction false} EligibleMembers(cs: seq<GuildChannel>)
    ensures forall c :: c in EligibleChannels(cs) <==> c in cs && Eligible(c)
  {
    if cs != [] {
      var init := cs[..|cs| - 1];
      EligibleMembers(init);
      assert cs == init + [Last(cs)];
      assert forall c :: c in cs <==> c in init || c == Last(cs);
    }
  }

  /** The eligible channels of a concatenation are those of its parts, in order. */
  lemma {:induction false} EligibleSplit(a: seq<GuildChannel>, b: seq<GuildChannel>)
    ensures EligibleChannels(a + b) == EligibleChannels(a) + EligibleChannels(b)
  {
    if b == [] {
      assert a + b == a;
    } else {
      var init := b[..|b| - 1];
      assert (a + b)[..|a + b| - 1] == a + init;
      assert Last(a + b) == Last(b);
      EligibleSplit(a, init);
    }
  }

  function Ids(cs: seq<GuildChannel>): (ids: seq<ChannelId>)
    ensures |ids| == |cs|
  {
    seq(|cs|, i requires 0 <= i < |cs| => cs[i].id)
  }

  predicate DistinctIds(cs: seq<GuildChannel>) {
    forall i, j :: 0 <= i < j < |cs| ==> cs[i].id != cs[j].id
  }

  /** `cs` after the channel with id `id` is deleted. */
  function Without(cs: seq<GuildChannel>, id: ChannelId): (r: seq<GuildChannel>)
    ensures forall c :: c in r <==> c in cs && c.id != id
  {
    if cs == [] then []
    else (if cs[0].id == id then [] else [cs[0]]) + Without(cs[1..], id)
  }

  /** Deleting an id no channel has changes nothing. */
  lemma {:induction false} WithoutAbsent(cs: seq<GuildChannel>, id: ChannelId)
    requires forall i :: 0 <= i < |cs| ==> cs[i].id != id
    ensures Without(cs, id) == cs
  {
    if cs != [] {
      WithoutAbsent(cs[1..], id);
      assert [cs[0]] + cs[1..] == cs;
    }
  }

  /** With distinct ids, deleting the first channel of the suffix `cs[i..]` leaves `cs[i + 1..]`. */
  lemma WithoutFirst(cs: seq<GuildChannel>, i: nat)
    requires i < |cs| && DistinctIds(cs[i..])
    ensures Without(cs[i..], cs[i].id) == cs[i + 1..]
  {
    var rest := cs[i..];
    assert rest[1..] == cs[i + 1..];
    assert forall j :: 0 <= j < |rest| - 1 ==> rest[1..][j] == rest[j + 1];
    WithoutAbsent(rest[1..], cs[i].id);
  }

  /** `cs` after `payloads` are sent into the channel with id `id`. */
  function PostTo(cs: seq<GuildChannel>, id: ChannelId, payloads: seq<Payload>): (r: seq<GuildChannel>)
    ensures |r| == |cs|
    ensures forall i :: 0 <= i < |cs| && cs[i].id != id ==> r[i] == cs[i]
    ensures forall i :: 0 <= i < |cs| && cs[i].id == id ==>
      r[i].posted == cs[i].posted + payloads && r[i].(posted := cs[i].posted) == cs[i]
  {
    seq(|cs|, i requires 0 <= i < |cs| =>
      if cs[i].id == id then cs[i].(posted := cs[i].posted + payloads) else cs[i])
  }

  /** Sending into the newest channel, whose id no other channel has, changes that channel alone. */
  lemma PostToLast(cs: seq<GuildChannel>, c: GuildChannel, payloads: seq<Payload>)
    requires forall i :: 0 <= i < |cs| ==> cs[i].id != c.id
    ensures PostTo(cs + [c], c.id, payloads) == cs + [c.(posted := c.posted + payloads)]
  {
    var r := PostTo(cs + [c], c.id, payloads);
    assert forall i :: 0 <= i < |cs| ==> r[i] == cs[i];
  }

  /** A server as the bot's cache holds it: its channels, in order, and the id the platform
      gives the next channel created. */
  class Guild {
    const name: string
    const everyone: RoleId
    var channels: seq<GuildChannel>
    var nextId: ChannelId

    /** Channel ids are distinct and below `nextId`, and every history is well formed. */
    ghost predicate Valid()
      reads this
    {
      && DistinctIds(channels)
      && (forall i :: 0 <= i < |channels| ==> channels[i].id < nextId)
      && (forall i :: 0 <= i < |channels| ==> ValidHistory(channels[i].history))
    }

    constructor(name: string, everyone: RoleId, channels: seq<GuildChannel>, nextId: ChannelId)
      requires DistinctIds(channels)
      requires forall i :: 0 <= i < |channels| ==> channels[i].id < nextId
      requires forall i :: 0 <= i < |channels| ==> ValidHistory(channels[i].history)
      ensures Valid()
      ensures this.name == name && this.everyone == everyone
      ensures this.channels == channels && this.nextId == nextId
    {
      this.name := name;
      this.everyone := everyone;
      this.channels := channels;
      this.nextId := nextId;
    }

    /** `channels.create({ name, type, parent, permissionOverwrites })`: a new, empty channel
      with a fresh id, appended to the server's channels. */
    method CreateChannel(name: string, kind: ChannelType, parent: Option<ChannelId>, overwrites: seq<Overwrite>)
      returns (ch: GuildChannel)
      requires Valid()
      modifies this
      ensures Valid()
      ensures ch == GuildChannel(old(nextId), name, kind, true, parent, overwrites, [], [])
      ensures channels == old(channels) + [ch]
      ensures nextId == old(nextId) + 1
    {
      ch := GuildChannel(nextId, name, kind, true, parent, overwrites, [], []);
      channels := channels + [ch];
      nextId := nextId + 1;
    }

    /** `channels.delete(id)` */
    method DeleteChannel(id: ChannelId)
      requires Valid()
      modifies this
      ensures Valid()
      ensures channels == Without(old(channels), id)
      ensures nextId == old(nextId)
    {
      WithoutValid(channels, id, nextId);
      channels := Without(channels, id);
    }

    /** `send`, for each of `payloads` in turn, into the channel with id `id`. */
    method Post(id: ChannelId, payloads: seq<Payload>)
      requires Valid()
      modifies this
      ensures Valid()
      ensures channels == PostTo(old(channels), id, payloads)
      ensures nextId == old(nextId)
    {
      channels := PostTo(channels, id, payloads);
    }
  }

  /** Deleting a channel keeps the ids distinct and below the bound, and the histories well formed. */
  lemma WithoutValid(cs: seq<GuildChannel>, id: ChannelId, bound: ChannelId)
    requires DistinctIds(cs)
    requires forall i :: 0 <= i < |cs| ==> cs[i].id < bound
    requires forall i :: 0 <= i < |cs| ==> ValidHistory(cs[i].history)
    ensures DistinctIds(Without(cs, id))
    ensures forall i :: 0 <= i < |Without(cs, id)| ==> Without(cs, id)[i].id < bound
    ensures forall i :: 0 <= i < |Without(cs, id)| ==> ValidHistory(Without(cs, id)[i].history)
  {
    var r := Without(cs, id);
    WithoutDistinct(cs, id);
    forall i | 0 <= i < |r| ensures r[i].id < bound && ValidHistory(r[i].history) {
      assert r[i] in r;
      var j :| 0 <= j < |cs| && cs[j] == r[i];
    }
  }

  /** Deleting a channel keeps the ids distinct. */
  lemma {:induction false} WithoutDistinct(cs: seq<GuildChannel>, id: ChannelId)
    requires DistinctIds(cs)
    ensures DistinctIds(Without(cs, id))
  {
    if cs != [] {
      var tail := cs[1..];
      assert DistinctIds(tail) by {
        assert forall i :: 0 <= i < |tail| ==> tail[i] == cs[i + 1];
      }
      WithoutDistinct(tail, id);
      var rest := Without(tail, id);
      if cs[0].id != id {
        forall c | c in rest ensures cs[0].id != c.id {
          var j :| 0 <= j < |tail| && tail[j] == c;
          assert cs[j + 1] == c;
        }
        DistinctCons(cs[0], rest);
      }
    }
  }

  lemma DistinctCons(c: GuildChannel, rest: seq<GuildChannel>)
    requires DistinctIds(rest)
    requires forall d :: d in rest ==> c.id != d.id
    ensures DistinctIds([c] + rest)
  {
    var r := [c] + rest;
    forall i, j | 0 <= i < j < |r| ensures r[i].id != r[j].id {
      assert r[j] == rest[j - 1];
      if i > 0 {
        assert r[i] == rest[i - 1];
      } else {
        assert rest[j - 1] in rest;
      }
    }
  }

  /** `client.guilds.cache.find(guild => guild.name === name)`: the first server with that name. */
  function FindGuild(guilds: seq<Guild>, name: string): (r: Option<Guild>)
    ensures r.None? <==> forall i :: 0 <= i < |guilds| ==> guilds[i].name != name
    ensures r.Some? ==> exists i :: (0 <= i < |guilds| && guilds[i] == r.value && r.value.name == name
      && forall j :: 0 <= j < i ==> guilds[j].name != name)
  {
    if guilds == [] then None
    else if guilds[0].name == name then Some(guilds[0])
    else
      var r := FindGuild(guilds[1..], name);
      assert r.Some? ==> exists i :: (0 < i < |guilds| && guilds[i] == r.value && r.value.name == name
        && forall j :: 0 <= j < i ==> guilds[j].name != name)
      by {
        if r.Some? {
          var i :| 0 <= i < |guilds[1..]| && guilds[1..][i] == r.value && r.value.name == name
            && forall j :: 0 <= j < i ==> guilds[1..][j].name != name;
          assert guilds[i + 1] == r.value;
          assert forall j :: 1 <= j < i + 1 ==> guilds[j] == guilds[1..][j - 1];
        }
      }
      r
  }

  /** The category created in the destination server: named after the source server, and
      hidden from `@everyone`. */
  function CategoryFor(sourceName: string, everyone: RoleId, id: ChannelId): (c: GuildChannel)
    ensures c.id == id && c.name == sourceName && c.kind == GuildCategory && c.parent == None
    ensures c.overwrites == [Overwrite(everyone, [ViewChannel])]
    ensures c.history == [] && c.posted == []
  {
    GuildChannel(id, sourceName, GuildCategory, true, None, [Overwrite(everyone, [ViewChannel])], [], [])
  }

  /** The text channel created for `source` under the category `parent`, holding the payloads
      sent into it. */
  function DestinationFor(source: GuildChannel, parent: ChannelId, id: ChannelId, sent: seq<Payload>)
    : (c: GuildChannel)
    ensures c.id == id && c.name == source.name && c.kind == GuildText && c.parent == Some(parent)
    ensures c.overwrites == [] && c.history == [] && c.posted == sent
  {
    GuildChannel(id, source.name, GuildText, true, Some(parent), [], [], sent)
  }

  /** One copied channel: the source channel, the channel created for it, and its migration. */
  datatype ChannelReport = ChannelReport(source: GuildChannel, destination: GuildChannel, run: ChannelRun)

  datatype TransportReport = TransportReport(category: GuildChannel, channels: seq<ChannelReport>)

  function Destinations(reports: seq<ChannelReport>): (ds: seq<GuildChannel>)
    ensures |ds| == |reports|
  {
    seq(|reports|, k requires 0 <= k < |reports| => reports[k].destination)
  }

  /** `r` copied `source` into the text channel with id `id` under `parent`, and that channel
      holds what `r`'s migration sent. */
  predicate Copied(r: ChannelReport, source: GuildChannel, parent: ChannelId, id: ChannelId) {
    && r.source == source
    && r.destination == DestinationFor(source, parent, id, r.run.sent)
  }

  /** Each report's migration is the complete migration of its source channel's history. */
  ghost predicate AllMigrated(reports: seq<ChannelReport>, env: Environment) {
    forall k :: 0 <= k < |reports| ==>
      Migrated(reports[k].run, reports[k].source.history, reports[k].source.name, env)
  }

  lemma MigratedAppend(reports: seq<ChannelReport>, r: ChannelReport, env: Environment)
    requires AllMigrated(reports, env)
    requires Migrated(r.run, r.source.history, r.source.name, env)
    ensures AllMigrated(reports + [r], env)
  {
    assert forall k :: 0 <= k < |reports| ==> (reports + [r])[k] == reports[k];
  }

  /** `reports` copy the channels `eligible` one for one, in order, into consecutive ids
      from `firstId`. */
  predicate Reported(reports: seq<ChannelReport>, eligible: seq<GuildChannel>, parent: ChannelId, firstId: ChannelId)
    decreases |reports|
  {
    && |reports| == |eligible|
    && (reports != [] ==>
          && Reported(reports[..|reports| - 1], eligible[..|eligible| - 1], parent, firstId)
          && Copied(Last(reports), Last(eligible), parent, firstId + |reports| - 1))
  }

  /** The `k`-th report copies the `k`-th eligible channel into id `firstId + k`. */
  lemma {:induction false} ReportedAt(
    reports: seq<ChannelReport>, eligible: seq<GuildChannel>, parent: ChannelId, firstId: ChannelId, k: nat)
    requires Reported(reports, eligible, parent, firstId) && k < |reports|
    ensures Copied(reports[k], eligible[k], parent, firstId + k)
  {
    if k < |reports| - 1 {
      ReportedAt(reports[..|reports| - 1], eligible[..|eligible| - 1], parent, firstId, k);
    }
  }

  /** Read one for one: every report copies an eligible channel of `cs` into a text channel
      under the category, and every eligible channel of `cs` has a report. */
  lemma CopiesExactlyEligible(
    reports: seq<ChannelReport>, cs: seq<GuildChannel>, parent: ChannelId, firstId: ChannelId)
    requires Reported(reports, EligibleChannels(cs), parent, firstId)
    ensures forall k :: 0 <= k < |reports| ==>
      && reports[k].source in cs && Eligible(reports[k].source)
      && reports[k].destination.kind == GuildText
      && reports[k].destination.parent == Some(parent)
      && reports[k].destination.name == reports[k].source.name
    ensures forall c :: c in cs && Eligible(c) ==> exists k :: 0 <= k < |reports| && reports[k].source == c
  {
    var eligible := EligibleChannels(cs);
    EligibleMembers(cs);
    forall k | 0 <= k < |reports|
      ensures && reports[k].source in cs && Eligible(reports[k].source)
              && reports[k].destination.kind == GuildText
              && reports[k].destination.parent == Some(parent)
              && reports[k].destination.name == reports[k].source.name
    {
      ReportedAt(reports, eligible, parent, firstId, k);
      assert eligible[k] in eligible;
    }
    forall c | c in cs && Eligible(c) ensures exists k :: 0 <= k < |reports| && reports[k].source == c {
      var k :| 0 <= k < |eligible| && eligible[k] == c;
      ReportedAt(reports, eligible, parent, firstId, k);
    }
  }

  /** Copying server `s` into server `d` produced `report`: one new category named after `s`,
      then one text channel per eligible channel of `s` (as it stood once the category
      existed), in order, each holding what its source's migration sent. */
  twostate predicate Transported(s: Guild, d: Guild, env: Environment, report: TransportReport)
    reads d
  {
    && d.Valid()
    && report.category == CategoryFor(s.name, d.everyone, old(d.nextId))
    && Reported(
         report.channels,
         EligibleChannels(old(s.channels) + (if s == d then [report.category] else [])),
         report.category.id, old(d.nextId) + 1)
    && AllMigrated(report.channels, env)
    && d.channels == old(d.channels) + [report.category] + Destinations(report.channels)
    && d.nextId == old(d.nextId) + 1 + |report.channels|
  }

  /** One eligible channel: create its text channel under the category, migrate its history,
      and the migration's sends land in the new channel. */
  method TransportChannel(d: Guild, sourceCh: GuildChannel, parent: ChannelId, env: Environment)
    returns (r: ChannelReport)
    requires d.Valid() && ValidHistory(sourceCh.history)
    modifies d
    ensures d.Valid()
    ensures Copied(r, sourceCh, parent, old(d.nextId))
    ensures Migrated(r.run, sourceCh.history, sourceCh.name, env)
    ensures d.channels == old(d.channels) + [r.destination]
    ensures d.nextId == old(d.nextId) + 1
  {
    var destCh := d.CreateChannel(sourceCh.name, GuildText, Some(parent), []);
    var run := MigrateChannel(sourceCh.history, destCh.name, env);
    d.Post(destCh.id, run.sent);
    PostToLast(old(d.channels), destCh, run.sent);
    assert destCh.posted + run.sent == run.sent;
    r := ChannelReport(sourceCh, destCh.(posted := run.sent), run);
  }

  lemma DestinationsAppend(base: seq<GuildChannel>, reports: seq<ChannelReport>, r: ChannelReport)
    ensures base + Destinations(reports + [r]) == base + Destinations(reports) + [r.destination]
  {
    assert Destinations(reports + [r]) == Destinations(reports) + [r.destination];
  }

  /** Handing on one more source channel extends the eligible channels by it alone, if it is eligible. */
  lemma EligibleAppend(cs: seq<GuildChannel>, i: nat)
    requires i < |cs|
    ensures EligibleChannels(cs[..i + 1])
         == EligibleChannels(cs[..i]) + (if Eligible(cs[i]) then [cs[i]] else [])
  {
    assert cs[..i + 1][..i] == cs[..i];
  }

  /** Copying one more eligible channel, into the next id, keeps the reports one for one. */
  lemma ReportedAppend(
    reports: seq<ChannelReport>, eligible: seq<GuildChannel>, r: ChannelReport, c: GuildChannel,
    parent: ChannelId, firstId: ChannelId)
    requires Reported(reports, eligible, parent, firstId)
    requires Copied(r, c, parent, firstId + |reports|)
    ensures Reported(reports + [r], eligible + [c], parent, firstId)
  {
    assert (reports + [r])[..|reports|] == reports;
    assert (eligible + [c])[..|eligible|] == eligible;
  }

  /** The state of the copy loop: the server `d` holds what it held before the loop, `base`,
      followed by one destination per report, and the reports copy `eligible` one for one. */
  ghost predicate Copying(
    d: Guild, base: seq<GuildChannel>, eligible: seq<GuildChannel>, reports: seq<ChannelReport>,
    parent: ChannelId, firstId: ChannelId, env: Environment)
    reads d
  {
    && d.Valid()
    && Reported(reports, eligible, parent, firstId)
    && AllMigrated(reports, env)
    && d.channels == base + Destinations(reports)
    && d.nextId == firstId + |reports|
  }

  /** One pass of the copy loop over the snapshot `cs`: channel `i` is copied if it passes the
      filter and skipped otherwise. */
  method CopyNext(
    d: Guild, cs: seq<GuildChannel>, i: nat, parent: ChannelId, ghost firstId: ChannelId,
    ghost base: seq<GuildChannel>, reports: seq<ChannelReport>, env: Environment)
    returns (next: seq<ChannelReport>)
    requires i < |cs| && forall k :: 0 <= k < |cs| ==> ValidHistory(cs[k].history)
    requires Copying(d, base, EligibleChannels(cs[..i]), reports, parent, firstId, env)
    modifies d
    ensures Copying(d, base, EligibleChannels(cs[..i + 1]), next, parent, firstId, env)
  {
    EligibleAppend(cs, i);
    var sourceCh := cs[i];
    if sourceCh.viewable && sourceCh.kind == GuildText {
      var r := TransportChannel(d, sourceCh, parent, env);
      DestinationsAppend(base, reports, r);
      ReportedAppend(reports, EligibleChannels(cs[..i]), r, sourceCh, parent, firstId);
      MigratedAppend(reports, r, env);
      next := reports + [r];
    } else {
      assert EligibleChannels(cs[..i]) + [] == EligibleChannels(cs[..i]);
      next := reports;
    }
  }

  /** `Promise.all(sourceChannels.map(…))`, one channel after the other: every channel of the
      snapshot `cs` that passes the filter is copied, in order. */
  method CopyAll(
    d: Guild, cs: seq<GuildChannel>, parent: ChannelId, ghost base: seq<GuildChannel>, env: Environment)
    returns (reports: seq<ChannelReport>)
    requires forall k :: 0 <= k < |cs| ==> ValidHistory(cs[k].history)
    requires Copying(d, base, [], [], parent, d.nextId, env)
    modifies d
    ensures Copying(d, base, EligibleChannels(cs), reports, parent, old(d.nextId), env)
  {
    ghost var firstId := d.nextId;
    reports := [];
    for i := 0 to |cs|
      invariant Copying(d, base, EligibleChannels(cs[..i]), reports, parent, firstId, env)
    {
      reports := CopyNext(d, cs, i, parent, firstId, base, reports, env);
    }
    assert cs[..|cs|] == cs;
  }

  /** The `transport-channels` mode from the moment both servers are found. */
  method Transport(s: Guild, d: Guild, env: Environment) returns (report: TransportReport)
    requires s.Valid() && d.Valid()
    modifies d
    ensures Transported(s, d, env, report)
  {
    var category := d.CreateChannel(s.name, GuildCategory, None, [Overwrite(d.everyone, [ViewChannel])]);
    var sourceChannels := s.channels;
    assert sourceChannels == old(s.channels) + (if s == d then [category] else []);
    assert d.channels + Destinations([]) == d.channels;
    var reports := CopyAll(d, sourceChannels, category.id, d.channels, env);
    report := TransportReport(category, reports);
  }

  /** The `danger-purge-all-channels` mode from the moment the server is found: every cached
      channel is deleted, and their ids are returned in cache order. */
  method Purge(g: Guild) returns (deleted: seq<ChannelId>)
    requires g.Valid()
    modifies g
    ensures g.Valid()
    ensures g.channels == []
    ensures deleted == Ids(old(g.channels))
    ensures g.nextId == old(g.nextId)
  {
    var cache := g.channels;
    ghost var ids := Ids(cache);
    deleted := [];
    for i := 0 to |cache|
      invariant g.Valid() && g.channels == cache[i..] && g.nextId == old(g.nextId)
      invariant deleted == ids[..i]
    {
      WithoutFirst(cache, i);
      g.DeleteChannel(cache[i].id);
      assert ids[..i + 1] == ids[..i] + [cache[i].id];
      deleted := deleted + [cache[i].id];
    }
    assert ids[..|cache|] == ids;
  }

  const TransportMode := "transport-channels"
  const PurgeMode := "danger-purge-all-channels"

  datatype RunError = InvalidMode(message: string) | GuildNotFound(name: string)

  datatype RunReport = ChannelsTransported(report: TransportReport) | ChannelsPurged(deleted: seq<ChannelId>)

  /** The `ready` handler: dispatch on the mode argument. A server that cannot be found fails
      the run before anything changes; the destination is looked up first, as
      `destServer.channels` is reached before `sourceServer.name`. */
  method Run(mode: string, source: string, dest: string, guilds: seq<Guild>, env: Environment)
    returns (r: Result<RunReport, RunError>)
    requires forall i :: 0 <= i < |guilds| ==> guilds[i].Valid()
    modifies guilds
    ensures forall i :: 0 <= i < |guilds| ==> guilds[i].Valid()
    ensures r.Failure? ==> forall i :: 0 <= i < |guilds| ==> unchanged(guilds[i])
    ensures mode != TransportMode && mode != PurgeMode ==>
      r == Failure(InvalidMode("INVALID_MODE: " + mode))
    ensures mode == TransportMode ==>
      var d := FindGuild(guilds, dest);
      var s := FindGuild(guilds, source);
      && (d.None? ==> r == Failure(GuildNotFound(dest)))
      && (d.Some? && s.None? ==> r == Failure(GuildNotFound(source)))
      && (d.Some? && s.Some? ==>
            && r.Success? && r.value.ChannelsTransported?
            && Transported(s.value, d.value, env, r.value.report))
      && forall i :: 0 <= i < |guilds| && d != Some(guilds[i]) ==> unchanged(guilds[i])
    ensures mode == PurgeMode ==>
      var g := FindGuild(guilds, source);
      && (g.None? ==> r == Failure(GuildNotFound(source)))
      && (g.Some? ==>
            && r == Success(ChannelsPurged(Ids(old(g.value.channels))))
            && g.value.channels == [])
      && forall i :: 0 <= i < |guilds| && g != Some(guilds[i]) ==> unchanged(guilds[i])
  {
    if mode == TransportMode {
      var destServer := FindGuild(guilds, dest);
      var sourceServer := FindGuild(guilds, source);
      if destServer.None? {
        return Failure(GuildNotFound(dest));
      }
      if sourceServer.None? {
        return Failure(GuildNotFound(source));
      }
      var report := Transport(sourceServer.value, destServer.value, env);
      r := Success(ChannelsTransported(report));
    } else if mode == PurgeMode {
      var devServer := FindGuild(guilds, source);
      if devServer.None? {
        return Failure(GuildNotFound(source));
      }
      var deleted := Purge(devServer.value);
      r := Success(ChannelsPurged(deleted));
    } else {
      r := Failure(InvalidMode("INVALID_MODE: " + mode));
    }
  }
}
