// The guild state the bot changes in place, and the effectful helpers of the
// handler: resolving the tickets category, creating a ticket channel, and
// archiving one (transcript, log message, lock loop, closing notice). Each
// method is proved against the pure rules of Channels and Transcript; calls to
// the platform become their effects on these records.
module Bot {
  import opened Text
  import opened Channels
  import opened Transcript
  import Naming
  import Flow

  /** A file sent with a message. */
  datatype Attachment = Attachment(name: string, text: string)

  /** A message the bot sends with `channel.send`, by the channel it goes to. */
  datatype Post =
    | TicketIntro(channel: Id, opener: Id, supportRole: Id, rows: seq<Flow.Row>)
    | ClosedLog(channel: Id, ticketName: string, closedBy: Id, file: Attachment)
    | ClosedNotice(channel: Id)

  predicate DistinctIds(chs: seq<Channel>)
  {
    forall i, j :: 0 <= i < j < |chs| ==> chs[i].id != chs[j].id
  }

  /** The transcript file of a ticket: `<channel-name>-transcript.txt` holding the rendered history. */
  function TranscriptFile(ticketName: string, fetched: seq<Message>, iso: int -> string): (r: Attachment)
    ensures r.name == TranscriptFileName(ticketName) && |r.name| == |ticketName| + 15
    ensures r.text == Render(fetched, iso) && |r.text| >= 1
    ensures r.text == NoMessages <==> fetched == []
  {
    NoMessagesIff(fetched, iso);
    Attachment(TranscriptFileName(ticketName), Render(fetched, iso))
  }

  /** The log message, sent only when the log channel exists and is text-based. */
  function LogPosts(chs: seq<Channel>, cfg: Config, ticketName: string, closedBy: Id, file: Attachment): (r: seq<Post>)
    ensures |r| <= 1
    ensures r != [] <==> Lookup(chs, cfg.logChannel).Some? && IsTextBased(Lookup(chs, cfg.logChannel).value.kind)
    ensures r != [] ==> r[0] == ClosedLog(cfg.logChannel, ticketName, closedBy, file)
  {
    match Lookup(chs, cfg.logChannel)
    case Some(log) => if IsTextBased(log.kind) then [ClosedLog(log.id, ticketName, closedBy, file)] else []
    case None => []
  }

  /** The channels after the lock loop has run over the overwrites of channel `here`. */
  function LockAt(chs: seq<Channel>, here: nat, support: Id, failing: set<Id>): seq<Channel>
    requires here < |chs|
  {
    chs[here := chs[here].(overwrites := Locked(chs[here].overwrites, support, failing))]
  }

  /** `interaction.channel?.parent`: the cached parent channel, none when there is no parent or it is not in the cache. */
  function ParentOf(chs: seq<Channel>, here: nat): (r: Option<Channel>)
    requires here < |chs|
    ensures r.Some? ==> r.value in chs && chs[here].parent == Some(r.value.id)
    ensures r.None? <==> chs[here].parent.None? || forall k :: 0 <= k < |chs| ==> chs[k].id != chs[here].parent.value
  {
    match chs[here].parent
    case Some(pid) => Lookup(chs, pid)
    case None => None
  }

  /** The channels a new ticket adds: possibly the tickets category, then the ticket itself. */
  function WithTicket(chs: seq<Channel>, newId: Id, everyone: Id, cfg: Config, opener: User): seq<Channel>
  {
    var added := CategoryAdded(chs, newId, everyone, cfg);
    var cat := ResolvedCategory(chs, newId, everyone, cfg);
    chs + added + [TicketChannel(newId + |added|, cat.id, everyone, cfg, opener)]
  }

  lemma LookupDistinct(chs: seq<Channel>, k: nat)
    requires DistinctIds(chs) && k < |chs|
    ensures Lookup(chs, chs[k].id) == Some(chs[k])
  {
    var r := Lookup(chs, chs[k].id);
    var j :| 0 <= j < |chs| && chs[j] == r.value;
  }

  /** The last channel `WithTicket` adds is the ticket, under the resolved category. */
  lemma WithTicketLast(chs: seq<Channel>, newId: Id, everyone: Id, cfg: Config, opener: User)
    ensures var w := WithTicket(chs, newId, everyone, cfg, opener);
      var added := CategoryAdded(chs, newId, everyone, cfg);
      |w| == |chs + added| + 1 && w[..|w| - 1] == chs + added &&
      w[|w| - 1].parent == Some(ResolvedCategory(chs, newId, everyone, cfg).id)
  {
    var added := CategoryAdded(chs, newId, everyone, cfg);
    var cat := ResolvedCategory(chs, newId, everyone, cfg);
    var ticket := TicketChannel(newId + |added|, cat.id, everyone, cfg, opener);
    assert (chs + added + [ticket])[..|chs + added|] == chs + added;
  }

  /** Before the ticket is added, looking up the resolved category's id finds it. */
  lemma ResolvedCategoryFound(chs: seq<Channel>, newId: Id, everyone: Id, cfg: Config)
    requires DistinctIds(chs)
    requires forall k :: 0 <= k < |chs| ==> chs[k].id < newId
    ensures var cat := ResolvedCategory(chs, newId, everyone, cfg);
      Lookup(chs + CategoryAdded(chs, newId, everyone, cfg), cat.id) == Some(cat)
  {
    match Resolve(chs, cfg)
    case Some(found) =>
      var k :| 0 <= k < |chs| && chs[k] == found;
      LookupDistinct(chs, k);
      assert chs + CategoryAdded(chs, newId, everyone, cfg) == chs;
    case None =>
      LookupAppend(chs, NewCategory(newId, everyone, cfg), newId);
  }

  /** A ticket the bot has just created sits under the resolved category. */
  lemma NewTicketParent(chs: seq<Channel>, newId: Id, everyone: Id, cfg: Config, opener: User)
    requires DistinctIds(chs)
    requires forall k :: 0 <= k < |chs| ==> chs[k].id < newId
    ensures var chs' := WithTicket(chs, newId, everyone, cfg, opener);
      ParentOf(chs', |chs'| - 1) == Some(ResolvedCategory(chs, newId, everyone, cfg))
  {
    var w := WithTicket(chs, newId, everyone, cfg, opener);
    var before := chs + CategoryAdded(chs, newId, everyone, cfg);
    var cat := ResolvedCategory(chs, newId, everyone, cfg);
    WithTicketLast(chs, newId, everyone, cfg, opener);
    ResolvedCategoryFound(chs, newId, everyone, cfg);
    assert w == before + [w[|w| - 1]];
    LookupAppend(before, w[|w| - 1], cat.id);
  }

  /** `/close` inside a ticket the bot has just created archives whenever its
      category was found by name or created, not taken from the configuration. */
  lemma CloseWorksInNewTicket(chs: seq<Channel>, newId: Id, everyone: Id, cfg: Config, opener: User)
    requires DistinctIds(chs)
    requires forall k :: 0 <= k < |chs| ==> chs[k].id < newId
    requires ConfiguredCategory(chs, cfg).None?
    ensures var chs' := WithTicket(chs, newId, everyone, cfg, opener);
      Flow.Respond(Flow.Command("close"), ParentOf(chs', |chs'| - 1)).ArchiveTicket?
  {
    NewTicketParent(chs, newId, everyone, cfg, opener);
    Flow.CloseAllowedInTicketsCategory(ResolvedCategory(chs, newId, everyone, cfg));
  }

  /** Appending a channel whose id is the next snowflake keeps the ids distinct
      and below the advanced counter. */
  lemma AppendFresh(chs: seq<Channel>, c: Channel, next: nat)
    requires DistinctIds(chs) && forall k :: 0 <= k < |chs| ==> chs[k].id < next
    requires c.id == next
    ensures DistinctIds(chs + [c])
    ensures forall k :: 0 <= k < |chs + [c]| ==> (chs + [c])[k].id < next + 1
  {
  }

  class Guild {
    /** The guild id, which is also the id of its @everyone role. */
    const id: Id
    const config: Config
    var channels: seq<Channel>
    /** Every message the bot has sent, oldest first. */
    var posts: seq<Post>
    /** Stands in for the platform's id allocator: above every id in use. */
    var nextSnowflake: nat

    ghost predicate Valid()
      reads this
    {
      DistinctIds(channels) &&
      forall k :: 0 <= k < |channels| ==> channels[k].id < nextSnowflake
    }

    constructor (id: Id, config: Config, channels: seq<Channel>, nextSnowflake: nat)
      requires DistinctIds(channels)
      requires forall k :: 0 <= k < |channels| ==> channels[k].id < nextSnowflake
      ensures Valid()
      ensures this.id == id && this.config == config && this.channels == channels
      ensures this.nextSnowflake == nextSnowflake && posts == []
    {
      this.id := id;
      this.config := config;
      this.channels := channels;
      this.nextSnowflake := nextSnowflake;
      posts := [];
    }

    /** The configured category if it exists and is a category; else the first
        category named `tickets` (any case); else a new `Tickets` category. */
    method GetOrCreateTicketsCategory() returns (cat: Channel)
      requires Valid()
      modifies this`channels, this`nextSnowflake
      ensures Valid()
      ensures cat == ResolvedCategory(old(channels), old(nextSnowflake), id, config)
      ensures channels == old(channels) + CategoryAdded(old(channels), old(nextSnowflake), id, config)
      ensures nextSnowflake == old(nextSnowflake) + |CategoryAdded(old(channels), old(nextSnowflake), id, config)|
    {
      if config.ticketsCategory.Some? {
        var configured := Lookup(channels, config.ticketsCategory.value);
        if configured.Some? && configured.value.kind == GuildCategory {
          assert Resolve(channels, config) == configured;
          return configured.value;
        }
      }
      assert ConfiguredCategory(channels, config).None?;
      var byName := FindTicketsCategory(channels);
      if byName.Some? {
        assert Resolve(channels, config) == Some(channels[byName.value]);
        return channels[byName.value];
      }
      assert Resolve(channels, config).None?;
      cat := NewCategory(nextSnowflake, id, config);
      AppendFresh(channels, cat, nextSnowflake);
      channels := channels + [cat];
      nextSnowflake := nextSnowflake + 1;
    }

    /** Resolves the category, creates the ticket channel under it and posts the
        introduction that mentions the opener and the support role. */
    method CreateTicketChannel(opener: User) returns (ticket: Channel)
      requires Valid()
      modifies this`channels, this`nextSnowflake, this`posts
      ensures Valid()
      ensures var added := CategoryAdded(old(channels), old(nextSnowflake), id, config);
        ticket == TicketChannel(old(nextSnowflake) + |added|,
                                ResolvedCategory(old(channels), old(nextSnowflake), id, config).id,
                                id, config, opener) &&
        nextSnowflake == old(nextSnowflake) + |added| + 1
      ensures channels == WithTicket(old(channels), old(nextSnowflake), id, config, opener)
      ensures posts == old(posts) + [TicketIntro(ticket.id, opener.id, config.supportRole, [Flow.CloseRow])]
    {
      var cat := GetOrCreateTicketsCategory();
      ticket := TicketChannel(nextSnowflake, cat.id, id, config, opener);
      AppendFresh(channels, ticket, nextSnowflake);
      channels := channels + [ticket];
      nextSnowflake := nextSnowflake + 1;
      posts := posts + [TicketIntro(ticket.id, opener.id, config.supportRole, [Flow.CloseRow])];
    }

    /** The lock loop: every overwrite of channel `here` except the support
        role's gets Send denied; an edit the platform rejects (`failing`) is
        swallowed and the loop goes on. */
    method LockTicket(here: nat, failing: set<Id>)
      requires Valid() && here < |channels|
      modifies this`channels
      ensures Valid()
      ensures channels == LockAt(old(channels), here, config.supportRole, failing)
    {
      var ows := channels[here].overwrites;
      var i := 0;
      while i < |ows|
        invariant 0 <= i <= |ows|
        invariant |channels| == |old(channels)|
        invariant forall j :: 0 <= j < |channels| && j != here ==> channels[j] == old(channels)[j]
        invariant channels[here] == old(channels)[here].(overwrites := channels[here].overwrites)
        invariant |channels[here].overwrites| == |ows|
        invariant forall k :: 0 <= k < i ==>
          channels[here].overwrites[k] == LockEntry(ows[k], config.supportRole, failing)
        invariant forall k :: i <= k < |ows| ==> channels[here].overwrites[k] == ows[k]
      {
        var ow := ows[i];
        if ow.id != config.supportRole {
          var accepted := ow.id !in failing;
          if accepted {
            var ch := channels[here];
            channels := channels[here := ch.(overwrites := ch.overwrites[i := DenySend(ow)])];
          }
        }
        i := i + 1;
      }
      assert channels[here].overwrites == Locked(ows, config.supportRole, failing);
    }

    /** Sends the transcript to the log channel when that exists and is
        text-based; otherwise sends nothing. */
    method PostToLog(ticketName: string, closedBy: Id, file: Attachment)
      modifies this`posts
      ensures posts == old(posts) + LogPosts(channels, config, ticketName, closedBy, file)
    {
      var log := Lookup(channels, config.logChannel);
      if log.Some? && IsTextBased(log.value.kind) {
        posts := posts + [ClosedLog(log.value.id, ticketName, closedBy, file)];
      }
    }

    /** Archives channel `here`: renders the transcript of its recent history,
        sends it to the log channel when that is a text channel, locks the
        channel and posts the closing notice, which is sent whatever edits failed. */
    method ArchiveTicket(here: nat, closedBy: Id, history: seq<Message>, failing: set<Id>, iso: int -> string)
      returns (file: Attachment)
      requires Valid() && here < |channels|
      modifies this`channels, this`posts
      ensures Valid()
      ensures file == TranscriptFile(old(channels)[here].name, FetchRecent(history), iso)
      ensures channels == LockAt(old(channels), here, config.supportRole, failing)
      ensures posts == old(posts) + LogPosts(old(channels), config, old(channels)[here].name, closedBy, file)
                       + [ClosedNotice(old(channels)[here].id)]
    {
      var ticket := channels[here];
      var fetched := FetchRecent(history);
      file := TranscriptFile(ticket.name, fetched, iso);
      PostToLog(ticket.name, closedBy, file);
      LockTicket(here, failing);
      posts := posts + [ClosedNotice(ticket.id)];
    }

    /** The interaction handler: answers as `Flow.Respond` says and performs the
        ticket creation or the archive that the answer calls for, nothing else. */
    method Handle(i: Flow.Interaction, user: User, here: nat, history: seq<Message>,
                  failing: set<Id>, iso: int -> string) returns (resp: Flow.Response)
      requires Valid() && here < |channels|
      modifies this`channels, this`nextSnowflake, this`posts
      ensures Valid()
      ensures resp == Flow.Respond(i, ParentOf(old(channels), here))
      ensures resp.CreateTicket? ==>
        channels == WithTicket(old(channels), old(nextSnowflake), id, config, user) &&
        nextSnowflake == old(nextSnowflake) + |CategoryAdded(old(channels), old(nextSnowflake), id, config)| + 1 &&
        posts == old(posts) + [TicketIntro(channels[|channels| - 1].id, user.id, config.supportRole, [Flow.CloseRow])]
      ensures resp.ArchiveTicket? ==>
        channels == LockAt(old(channels), here, config.supportRole, failing) &&
        nextSnowflake == old(nextSnowflake) &&
        posts == old(posts)
                 + LogPosts(old(channels), config, old(channels)[here].name, user.id,
                            TranscriptFile(old(channels)[here].name, FetchRecent(history), iso))
                 + [ClosedNotice(old(channels)[here].id)]
      ensures !resp.CreateTicket? && !resp.ArchiveTicket? ==>
        channels == old(channels) && posts == old(posts) && nextSnowflake == old(nextSnowflake)
    {
      resp := Flow.Respond(i, ParentOf(channels, here));
      if resp.CreateTicket? {
        var ticket := CreateTicketChannel(user);
        assert channels[|channels| - 1] == ticket;
      } else if resp.ArchiveTicket? {
        var file := ArchiveTicket(here, user.id, history, failing, iso);
      }
    }
  }
}
