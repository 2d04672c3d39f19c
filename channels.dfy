// Channels, permission overwrites and the pure rules of the ticket lifecycle:
// how the tickets category is resolved, what a new ticket channel looks like,
// and how closing rewrites its overwrites.
module Channels {
  import opened Text
  import Naming

  /** A Discord snowflake: channel, role and user ids share this space. */
  type Id = nat

  // Permission flags, as bit positions of Discord's permission bitfield.
  const ViewChannel: nat := 10
  const SendMessages: nat := 11
  const ReadMessageHistory: nat := 16

  /** A permission overwrite: the subject (role or member) and the bits it allows and denies. */
  datatype Overwrite = Overwrite(id: Id, allow: set<nat>, deny: set<nat>)

  datatype ChannelKind =
    | GuildText | GuildVoice | GuildCategory | GuildAnnouncement | GuildStageVoice | GuildForum

  /** `channel.isTextBased()`: the channel kinds that hold messages. */
  predicate IsTextBased(k: ChannelKind)
    ensures IsTextBased(k) <==> k.GuildText? || k.GuildVoice? || k.GuildAnnouncement? || k.GuildStageVoice?
  {
    k != GuildCategory && k != GuildForum
  }

  datatype Channel = Channel(
    id: Id,
    kind: ChannelKind,
    name: string,
    parent: Option<Id>,
    overwrites: seq<Overwrite>)

  /** The bot's configuration; the tickets category id is optional. */
  datatype Config = Config(supportRole: Id, logChannel: Id, ticketsCategory: Option<Id>)

  datatype User = User(id: Id, username: string)

  /** `guild.channels.cache.get(id)`. */
  function Lookup(chs: seq<Channel>, id: Id): (r: Option<Channel>)
    ensures r.Some? ==> r.value in chs && r.value.id == id
    ensures r.None? <==> forall k :: 0 <= k < |chs| ==> chs[k].id != id
  {
    if chs == [] then None
    else if chs[0].id == id then Some(chs[0])
    else Lookup(chs[1..], id)
  }

  predicate IsTicketsCategory(c: Channel)
  {
    c.kind == GuildCategory && Lower(c.name) == "tickets"
  }

  /** `cache.find(...)`: the first category whose lower-cased name is `tickets`. */
  function FindTicketsCategory(chs: seq<Channel>): (r: Option<nat>)
    ensures r.Some? ==> r.value < |chs| && IsTicketsCategory(chs[r.value])
    ensures r.Some? ==> forall k :: 0 <= k < r.value ==> !IsTicketsCategory(chs[k])
    ensures r.None? <==> forall k :: 0 <= k < |chs| ==> !IsTicketsCategory(chs[k])
  {
    if chs == [] then None
    else if IsTicketsCategory(chs[0]) then Some(0)
    else match FindTicketsCategory(chs[1..])
      case None => None
      case Some(k) => Some(k + 1)
  }

  /** The configured category, when it is set, exists and is a category. */
  function ConfiguredCategory(chs: seq<Channel>, cfg: Config): (r: Option<Channel>)
    ensures r.Some? ==>
      cfg.ticketsCategory.Some? && r.value.id == cfg.ticketsCategory.value &&
      r.value in chs && r.value.kind == GuildCategory
    ensures r.None? <==>
      cfg.ticketsCategory.None? || Lookup(chs, cfg.ticketsCategory.value).None? ||
      Lookup(chs, cfg.ticketsCategory.value).value.kind != GuildCategory
  {
    match cfg.ticketsCategory
    case None => None
    case Some(cid) =>
      match Lookup(chs, cid)
      case Some(c) => if c.kind == GuildCategory then Some(c) else None
      case None => None
  }

  /** Which existing category holds tickets; `None` means a new one must be created. */
  function Resolve(chs: seq<Channel>, cfg: Config): (r: Option<Channel>)
    ensures r.Some? ==> r.value in chs && r.value.kind == GuildCategory
    ensures ConfiguredCategory(chs, cfg).Some? ==> r == ConfiguredCategory(chs, cfg)
    ensures ConfiguredCategory(chs, cfg).None? && r.Some? ==> IsTicketsCategory(r.value)
    ensures ConfiguredCategory(chs, cfg).None? && r.Some? ==>
      exists k :: 0 <= k < |chs| && chs[k] == r.value && forall j :: 0 <= j < k ==> !IsTicketsCategory(chs[j])
    ensures r.None? <==>
      ConfiguredCategory(chs, cfg).None? && forall k :: 0 <= k < |chs| ==> !IsTicketsCategory(chs[k])
  {
    match ConfiguredCategory(chs, cfg)
    case Some(c) => Some(c)
    case None =>
      match FindTicketsCategory(chs)
      case Some(k) => Some(chs[k])
      case None => None
  }

  /** The category created when none is found: `Tickets`, with everyone denied
      View and the support role allowed View. The name search finds it. */
  function NewCategory(id: Id, everyone: Id, cfg: Config): (r: Channel)
    ensures r.id == id && r.parent.None? && IsTicketsCategory(r)
    ensures |r.overwrites| == 2
    ensures r.overwrites[0] == Overwrite(everyone, {}, {ViewChannel})
    ensures r.overwrites[1] == Overwrite(cfg.supportRole, {ViewChannel}, {})
  {
    assert Lower("Tickets") == "tickets" by {
      assert forall i :: 0 <= i < 7 ==> Lower("Tickets")[i] == "tickets"[i];
    }
    Channel(id, GuildCategory, "Tickets", None,
      [Overwrite(everyone, {}, {ViewChannel}),
       Overwrite(cfg.supportRole, {ViewChannel}, {})])
  }

  /** The category tickets go into, given the id the platform would assign a new one. */
  function ResolvedCategory(chs: seq<Channel>, newId: Id, everyone: Id, cfg: Config): Channel
  {
    match Resolve(chs, cfg)
    case Some(c) => c
    case None => NewCategory(newId, everyone, cfg)
  }

  /** The channels resolution adds: the new category, or nothing. */
  function CategoryAdded(chs: seq<Channel>, newId: Id, everyone: Id, cfg: Config): seq<Channel>
  {
    if Resolve(chs, cfg).None? then [NewCategory(newId, everyone, cfg)] else []
  }

  lemma {:induction false} LookupAppend(chs: seq<Channel>, c: Channel, id: Id)
    ensures Lookup(chs + [c], id) ==
      if Lookup(chs, id).Some? then Lookup(chs, id) else if c.id == id then Some(c) else None
  {
    if chs != [] {
      assert (chs + [c])[1..] == chs[1..] + [c];
      LookupAppend(chs[1..], c, id);
    }
  }

  lemma {:induction false} FindAppend(chs: seq<Channel>, c: Channel)
    requires FindTicketsCategory(chs).None? && IsTicketsCategory(c)
    ensures FindTicketsCategory(chs + [c]) == Some(|chs|)
  {
    if chs != [] {
      assert (chs + [c])[1..] == chs[1..] + [c];
      FindAppend(chs[1..], c);
    }
  }

  /** Resolution is idempotent: once a category was created, resolving again
      finds that category and creates nothing. */
  lemma ResolveIdempotent(chs: seq<Channel>, newId: Id, everyone: Id, cfg: Config)
    ensures var chs' := chs + CategoryAdded(chs, newId, everyone, cfg);
      Resolve(chs', cfg) == Some(ResolvedCategory(chs, newId, everyone, cfg)) &&
      CategoryAdded(chs', newId, everyone, cfg) == []
  {
    if Resolve(chs, cfg).None? {
      var cat := NewCategory(newId, everyone, cfg);
      var chs' := chs + [cat];
      assert CategoryAdded(chs, newId, everyone, cfg) == [cat];
      assert ResolvedCategory(chs, newId, everyone, cfg) == cat;
      match cfg.ticketsCategory {
        case Some(cid) => LookupAppend(chs, cat, cid);
        case None =>
      }
      if ConfiguredCategory(chs', cfg).None? {
        FindAppend(chs, cat);
        assert chs'[|chs|] == cat;
      } else {
        assert ConfiguredCategory(chs', cfg) == Some(cat);
      }
      assert Resolve(chs', cfg) == Some(cat);
    } else {
      assert chs + CategoryAdded(chs, newId, everyone, cfg) == chs;
    }
  }

  const AllowedInTicket: set<nat> := {ViewChannel, SendMessages, ReadMessageHistory}

  /** The three overwrites of a new ticket channel: everyone is denied View and
      allowed nothing; the support role and the opener are allowed View, Send
      and ReadHistory and denied nothing. */
  function TicketOverwrites(everyone: Id, support: Id, opener: Id): (r: seq<Overwrite>)
    ensures |r| == 3
    ensures r[0].id == everyone && r[0].allow == {} && r[0].deny == {ViewChannel}
    ensures r[1].id == support && r[2].id == opener
    ensures forall k :: 1 <= k < 3 ==>
      r[k].deny == {} && r[k].allow == {ViewChannel, SendMessages, ReadMessageHistory}
  {
    [Overwrite(everyone, {}, {ViewChannel}),
     Overwrite(support, AllowedInTicket, {}),
     Overwrite(opener, AllowedInTicket, {})]
  }

  /** The ticket channel: a text channel under the category, named
      `ticket-<sanitised username>`, with the three ticket overwrites. */
  function TicketChannel(id: Id, parent: Id, everyone: Id, cfg: Config, opener: User): (r: Channel)
    ensures r.id == id && r.kind == GuildText && r.parent == Some(parent)
    ensures |r.name| >= 7 && r.name[..7] == "ticket-" && Naming.AllAllowed(r.name)
    ensures r.name[7..] == Naming.Sanitize(opener.username)
    ensures r.overwrites == TicketOverwrites(everyone, cfg.supportRole, opener.id)
  {
    Channel(id, GuildText, Naming.TicketChannelName(opener.username), Some(parent),
      TicketOverwrites(everyone, cfg.supportRole, opener.id))
  }

  /** `permissionOverwrites.edit(id, { SendMessages: false })`: Send moves to the denied bits. */
  function DenySend(ow: Overwrite): (r: Overwrite)
    ensures r.id == ow.id
    ensures SendMessages in r.deny && SendMessages !in r.allow
    ensures r.allow - {SendMessages} == ow.allow - {SendMessages}
    ensures r.deny - {SendMessages} == ow.deny - {SendMessages}
  {
    ow.(allow := ow.allow - {SendMessages}, deny := ow.deny + {SendMessages})
  }

  /** One step of the lock loop: every subject but the support role loses Send,
      unless the platform rejects that edit (`failing`), which is swallowed. */
  function LockEntry(ow: Overwrite, support: Id, failing: set<Id>): (r: Overwrite)
    ensures r.id == ow.id
    ensures ow.id == support || ow.id in failing ==> r == ow
    ensures ow.id != support && ow.id !in failing ==>
      SendMessages in r.deny && SendMessages !in r.allow &&
      r.allow - {SendMessages} == ow.allow - {SendMessages} &&
      r.deny - {SendMessages} == ow.deny - {SendMessages}
  {
    if ow.id != support && ow.id !in failing then DenySend(ow) else ow
  }

  function Locked(ows: seq<Overwrite>, support: Id, failing: set<Id>): (r: seq<Overwrite>)
    ensures |r| == |ows|
    ensures forall k :: 0 <= k < |ows| ==> r[k] == LockEntry(ows[k], support, failing)
  {
    seq(|ows|, k requires 0 <= k < |ows| => LockEntry(ows[k], support, failing))
  }

  /** What closing does to each overwrite. */
  lemma LockedEffect(ows: seq<Overwrite>, support: Id, failing: set<Id>, k: nat)
    requires k < |ows|
    ensures var ow, ow' := ows[k], Locked(ows, support, failing)[k];
      ow'.id == ow.id &&
      (ow.id == support || ow.id in failing ==> ow' == ow) &&
      (ow.id != support && ow.id !in failing ==>
         SendMessages in ow'.deny && SendMessages !in ow'.allow &&
         ow'.allow - {SendMessages} == ow.allow - {SendMessages} &&
         ow'.deny - {SendMessages} == ow.deny - {SendMessages})
  {
  }

  /** Closing twice locks every subject whose edit succeeded at least once:
      the same as one close in which only the edits that failed both times fail. */
  lemma LockTwice(ows: seq<Overwrite>, support: Id, failing1: set<Id>, failing2: set<Id>)
    ensures Locked(Locked(ows, support, failing1), support, failing2) ==
            Locked(ows, support, failing1 * failing2)
  {
    var once := Locked(ows, support, failing1);
    forall k | 0 <= k < |ows|
      ensures Locked(once, support, failing2)[k] == Locked(ows, support, failing1 * failing2)[k]
    {
      var ow := ows[k];
      if ow.id != support && ow.id !in failing1 && ow.id !in failing2 {
        assert DenySend(DenySend(ow)) == DenySend(ow);
      }
    }
  }

  /** Once a close has succeeded on every edit, closing again changes nothing,
      whichever edits fail the second time. */
  lemma LockIdempotent(ows: seq<Overwrite>, support: Id, failing: set<Id>)
    ensures Locked(Locked(ows, support, {}), support, failing) == Locked(ows, support, {})
  {
    LockTwice(ows, support, {}, failing);
    assert {} * failing == {};
  }

  /** A freshly created ticket channel, once closed without failures: everyone
      still cannot view it, the support role keeps View, Send and ReadHistory,
      and the opener keeps View and ReadHistory but can no longer send. */
  lemma ClosedTicketIsReadOnly(everyone: Id, support: Id, opener: Id)
    requires everyone != support && opener != support
    ensures Locked(TicketOverwrites(everyone, support, opener), support, {}) ==
      [Overwrite(everyone, {}, {ViewChannel, SendMessages}),
       Overwrite(support, AllowedInTicket, {}),
       Overwrite(opener, {ViewChannel, ReadMessageHistory}, {SendMessages})]
  {
    var locked := Locked(TicketOverwrites(everyone, support, opener), support, {});
    assert locked[0] == Overwrite(everyone, {}, {ViewChannel, SendMessages});
    assert locked[1] == Overwrite(support, AllowedInTicket, {});
    assert AllowedInTicket - {SendMessages} == {ViewChannel, ReadMessageHistory};
    assert locked[2] == Overwrite(opener, {ViewChannel, ReadMessageHistory}, {SendMessages});
  }
}
