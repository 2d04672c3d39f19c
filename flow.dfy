// The interaction dispatcher: a stateless map from the command or the control a
// user pressed (and the value chosen in a select menu) to the bot's response.
// The "session" lives only in which controls the last response showed, so the
// ticket-opening decision tree is checked as paths through those controls.
module Flow {
  import opened Text
  import opened Channels

  // The custom ids the bot gives its controls (the `IDS` table).
  const OpenTicketId: string := "open_ticket_btn"
  const FaqYesId: string := "step_faq_yes"
  const FaqNoId: string := "step_faq_no"
  const SupportSelectId: string := "step_support_select"
  const ReportYesId: string := "step_ingame_report_yes"
  const ReportNoId: string := "step_ingame_report_no"
  const CloseTicketId: string := "close_ticket_btn"

  /** A custom id that is none of the bot's own. */
  predicate IsForeignId(s: string)
  {
    s != OpenTicketId && s != FaqYesId && s != FaqNoId && s != SupportSelectId &&
    s != ReportYesId && s != ReportNoId && s != CloseTicketId
  }

  type ForeignId = s: string | IsForeignId(s) witness ""

  /** A control's custom id, parsed: one of the bot's seven, or any other id. */
  datatype ControlId =
    | OpenTicketBtn | StepFaqYes | StepFaqNo | StepSupportSelect
    | StepIngameReportYes | StepIngameReportNo | CloseTicketBtn
    | UnknownControl(customId: ForeignId)

  /** The custom id string of a control. */
  function CustomId(c: ControlId): string
  {
    match c
    case OpenTicketBtn => OpenTicketId
    case StepFaqYes => FaqYesId
    case StepFaqNo => FaqNoId
    case StepSupportSelect => SupportSelectId
    case StepIngameReportYes => ReportYesId
    case StepIngameReportNo => ReportNoId
    case CloseTicketBtn => CloseTicketId
    case UnknownControl(s) => s
  }

  /** The comparisons `interaction.customId === IDS.X`, done once. */
  function ControlOf(customId: string): (r: ControlId)
    ensures CustomId(r) == customId
    ensures r.UnknownControl? <==> IsForeignId(customId)
  {
    if customId == OpenTicketId then OpenTicketBtn
    else if customId == FaqYesId then StepFaqYes
    else if customId == FaqNoId then StepFaqNo
    else if customId == SupportSelectId then StepSupportSelect
    else if customId == ReportYesId then StepIngameReportYes
    else if customId == ReportNoId then StepIngameReportNo
    else if customId == CloseTicketId then CloseTicketBtn
    else UnknownControl(customId)
  }

  /** Parsing a control's custom id gives that control back, so a parsed
      control and its custom id determine each other. */
  lemma ControlRoundTrip(c: ControlId)
    ensures ControlOf(CustomId(c)) == c
    ensures c.UnknownControl? <==> IsForeignId(CustomId(c))
  {
  }

  /** What the platform delivers: a slash command, a button press, a string-select
      choice (each with its parsed custom id, `ControlOf(customId)`), or anything else. */
  datatype Interaction =
    | Command(name: string)
    | Button(control: ControlId)
    | Select(control: ControlId, values: seq<string>)
    | OtherInteraction

  predicate IsControl(i: Interaction)
  {
    i.Button? || i.Select?
  }

  /** The control rows a message can carry. */
  datatype Row = OpenTicketRow | FaqRow | SupportTypeRow | IngameReportRow | CloseRow

  /** The embed or text a reply or update shows, by tag. */
  datatype Screen =
    | IntroPanel | ConnectionTips | FaqPointer | CloseRefused
    | FaqPrompt | ReadFaqFirst | SupportTypePrompt | ReportPrompt | FileReportFirst

  /** A fresh reply, an in-place update of the prompt (its controls replaced by
      `rows`), ticket creation (prompt cleared, channel created, follow-up sent),
      archiving (deferred reply, archive, acknowledgement), or nothing. */
  datatype Response =
    | NoResponse
    | Reply(screen: Screen, ephemeral: bool, rows: seq<Row>)
    | Update(screen: Screen, rows: seq<Row>)
    | CreateTicket
    | ArchiveTicket(ack: string)

  /** The `/close` guard: the channel's parent is a category whose lower-cased name contains `ticket`. */
  predicate CloseAllowed(parent: Option<Channel>)
    ensures CloseAllowed(parent) ==>
      parent.Some? && parent.value.kind == GuildCategory && |parent.value.name| >= 6
  {
    parent.Some? && parent.value.kind == GuildCategory && Contains(Lower(parent.value.name), "ticket")
  }

  /** The button and select branches, in the order the handler tests them. */
  function RespondToControl(c: ControlId, isSelect: bool, values: seq<string>): (r: Response)
    ensures r.CreateTicket? <==>
      c == StepIngameReportYes || (c == StepSupportSelect && isSelect && |values| > 0 && values[0] == "other")
    ensures r.ArchiveTicket? <==> c == CloseTicketBtn
    ensures r.Reply? <==> c == OpenTicketBtn
    ensures r == NoResponse <==>
      c.UnknownControl? ||
      (c == StepSupportSelect && !(isSelect && |values| > 0 && (values[0] == "other" || values[0] == "ingame")))
  {
    match c
    case OpenTicketBtn => Reply(FaqPrompt, true, [FaqRow])
    case StepFaqNo => Update(ReadFaqFirst, [])
    case StepFaqYes => Update(SupportTypePrompt, [SupportTypeRow])
    case StepSupportSelect =>
      if isSelect && |values| > 0 && values[0] == "other" then CreateTicket
      else if isSelect && |values| > 0 && values[0] == "ingame" then Update(ReportPrompt, [IngameReportRow])
      else NoResponse
    case StepIngameReportNo => Update(FileReportFirst, [])
    case StepIngameReportYes => CreateTicket
    case CloseTicketBtn => ArchiveTicket("Ticket closed.")
    case UnknownControl(_) => NoResponse
  }

  /** The whole handler; `parent` is the parent of the channel the interaction came from. */
  function Respond(i: Interaction, parent: Option<Channel>): (r: Response)
    ensures r.CreateTicket? || r.Update? ==> IsControl(i)
    ensures i.Command? ==> (r == NoResponse <==>
      i.name != "setup_tickets" && i.name != "conprob" && i.name != "faq" && i.name != "close")
    ensures i.Command? && r.ArchiveTicket? ==> i.name == "close" && CloseAllowed(parent)
    ensures IsControl(i) ==> (r.ArchiveTicket? <==> i.control == CloseTicketBtn)
    ensures i.OtherInteraction? ==> r == NoResponse
  {
    match i
    case Command(name) =>
      if name == "setup_tickets" then Reply(IntroPanel, false, [OpenTicketRow])
      else if name == "conprob" then Reply(ConnectionTips, false, [])
      else if name == "faq" then Reply(FaqPointer, true, [])
      else if name == "close" then
        if CloseAllowed(parent) then ArchiveTicket("Ticket closed and archived.")
        else Reply(CloseRefused, true, [])
      else NoResponse
    case Button(c) => RespondToControl(c, false, [])
    case Select(c, values) => RespondToControl(c, true, values)
    case OtherInteraction => NoResponse
  }

  predicate SelectsOther(i: Interaction)
  {
    i.Select? && i.control == StepSupportSelect && |i.values| > 0 && i.values[0] == "other"
  }

  predicate SelectsIngame(i: Interaction)
  {
    i.Select? && i.control == StepSupportSelect && |i.values| > 0 && i.values[0] == "ingame"
  }


  /** A ticket is created exactly for the `other` choice and for "yes, I filed a report". */
  lemma CreatesIff(i: Interaction, parent: Option<Channel>)
    ensures Respond(i, parent).CreateTicket? <==>
      SelectsOther(i) || (IsControl(i) && i.control == StepIngameReportYes)
  {
  }

  /** Archiving happens for the close button, whoever presses it, and for `/close` inside a ticket category. */
  lemma ArchivesIff(i: Interaction, parent: Option<Channel>)
    ensures Respond(i, parent).ArchiveTicket? <==>
      (IsControl(i) && i.control == CloseTicketBtn) || (i == Command("close") && CloseAllowed(parent))
  {
  }

  /** `/close` outside a ticket category is refused and archives nothing. */
  lemma CloseCommandGuard(parent: Option<Channel>)
    ensures !CloseAllowed(parent) ==> Respond(Command("close"), parent) == Reply(CloseRefused, true, [])
    ensures CloseAllowed(parent) ==> Respond(Command("close"), parent).ArchiveTicket?
  {
  }

  /** A control gets no response at all exactly when its custom id is none of the
      bot's, or it is the support select without an `ingame` or `other` choice
      (or not a select menu). */
  lemma SilentIff(i: Interaction, parent: Option<Channel>)
    requires IsControl(i)
    ensures Respond(i, parent) == NoResponse <==>
      IsForeignId(CustomId(i.control)) ||
      (i.control == StepSupportSelect && !SelectsOther(i) && !SelectsIngame(i))
  {
    ControlRoundTrip(i.control);
  }

  /** The two refusals in the flow clear the prompt's controls and create nothing. */
  lemma AbortsClearControls(i: Interaction, parent: Option<Channel>)
    requires IsControl(i) && (i.control == StepFaqNo || i.control == StepIngameReportNo)
    ensures Respond(i, parent).Update? && Respond(i, parent).rows == []
    ensures !Respond(i, parent).CreateTicket?
  {
  }

  // ---------- Paths through the decision tree ----------

  /** The interactions a control row lets the user send. */
  function Offers(row: Row): set<Interaction>
  {
    match row
    case OpenTicketRow => {Button(OpenTicketBtn)}
    case FaqRow => {Button(StepFaqYes), Button(StepFaqNo)}
    case SupportTypeRow => {Select(StepSupportSelect, ["ingame"]), Select(StepSupportSelect, ["other"])}
    case IngameReportRow => {Button(StepIngameReportYes), Button(StepIngameReportNo)}
    case CloseRow => {Button(CloseTicketBtn)}
  }

  function Shown(r: Response): seq<Row>
  {
    match r
    case Reply(_, _, rows) => rows
    case Update(_, rows) => rows
    case _ => []
  }

  function OfferedBy(rows: seq<Row>): set<Interaction>
  {
    if rows == [] then {} else Offers(rows[0]) + OfferedBy(rows[1..])
  }

  /** `b` is one of the controls shown after the response to `a`. */
  predicate Next(a: Interaction, b: Interaction)
  {
    b in OfferedBy(Shown(Respond(a, None)))
  }

  /** A flow instance: it starts at the Open Ticket button and each later step
      presses a control that the previous response showed. */
  predicate IsFlow(p: seq<Interaction>)
  {
    |p| >= 1 && p[0] == Button(OpenTicketBtn) &&
    forall k :: 0 <= k < |p| - 1 ==> Next(p[k], p[k + 1])
  }

  /** A flow that has reached a response without controls. */
  predicate IsComplete(p: seq<Interaction>)
  {
    IsFlow(p) && OfferedBy(Shown(Respond(p[|p| - 1], None))) == {}
  }

  /** How many steps of `p` create a ticket channel. */
  function CreationCount(p: seq<Interaction>): nat
  {
    if p == [] then 0
    else CreationCount(p[..|p| - 1]) + if Respond(p[|p| - 1], None).CreateTicket? then 1 else 0
  }

  const OpenBtn: Interaction := Button(OpenTicketBtn)
  const FaqYes: Interaction := Button(StepFaqYes)
  const FaqNo: Interaction := Button(StepFaqNo)
  const PickIngame: Interaction := Select(StepSupportSelect, ["ingame"])
  const PickOther: Interaction := Select(StepSupportSelect, ["other"])
  const ReportYes: Interaction := Button(StepIngameReportYes)
  const ReportNo: Interaction := Button(StepIngameReportNo)

  /** The decision tree: Open Ticket, then FAQ yes or no, then (after yes) the
      support type, then (after in-game) report yes or no. */
  predicate FollowsTree(p: seq<Interaction>)
  {
    1 <= |p| <= 4 && p[0] == OpenBtn &&
    (|p| >= 2 ==> p[1] == FaqYes || p[1] == FaqNo) &&
    (|p| >= 3 ==> p[1] == FaqYes && (p[2] == PickIngame || p[2] == PickOther)) &&
    (|p| == 4 ==> p[2] == PickIngame && (p[3] == ReportYes || p[3] == ReportNo))
  }

  /** The four answers that end a flow. */
  predicate IsTerminal(i: Interaction)
  {
    i == FaqNo || i == PickOther || i == ReportNo || i == ReportYes
  }

  lemma StepResponses()
    ensures Respond(OpenBtn, None) == Reply(FaqPrompt, true, [FaqRow])
    ensures Respond(FaqYes, None) == Update(SupportTypePrompt, [SupportTypeRow])
    ensures Respond(FaqNo, None) == Update(ReadFaqFirst, [])
    ensures Respond(PickIngame, None) == Update(ReportPrompt, [IngameReportRow])
    ensures Respond(PickOther, None) == CreateTicket
    ensures Respond(ReportYes, None) == CreateTicket
    ensures Respond(ReportNo, None) == Update(FileReportFirst, [])
  {
  }

  lemma Successors(a: Interaction, b: Interaction)
    requires Next(a, b)
    ensures a == OpenBtn ==> b == FaqYes || b == FaqNo
    ensures a == FaqYes ==> b == PickIngame || b == PickOther
    ensures a == PickIngame ==> b == ReportYes || b == ReportNo
    ensures !IsTerminal(a)
  {
    StepResponses();
  }

  lemma {:induction false} FlowsFollowTree(p: seq<Interaction>)
    requires IsFlow(p)
    ensures FollowsTree(p)
  {
    var n := |p|;
    if n > 1 {
      var q := p[..n - 1];
      assert IsFlow(q) by {
        forall k | 0 <= k < |q| - 1 ensures Next(q[k], q[k + 1]) {
          assert Next(p[k], p[k + 1]);
        }
      }
      FlowsFollowTree(q);
      assert Next(p[n - 2], p[n - 1]);
      Successors(p[n - 2], p[n - 1]);
    }
  }

  lemma TreeIsFlow(p: seq<Interaction>)
    requires FollowsTree(p)
    ensures IsFlow(p)
  {
    StepResponses();
    forall k | 0 <= k < |p| - 1 ensures Next(p[k], p[k + 1]) {
    }
  }

  /** The flows that end are exactly the four paths of the tree: aborting after
      "not read the FAQ" or "no report yet", or creating a ticket on either path. */
  lemma CompleteIff(p: seq<Interaction>)
    ensures IsComplete(p) <==> FollowsTree(p) && IsTerminal(p[|p| - 1])
  {
    StepResponses();
    if IsComplete(p) {
      FlowsFollowTree(p);
    }
    if FollowsTree(p) && IsTerminal(p[|p| - 1]) {
      TreeIsFlow(p);
    }
  }

  lemma {:induction false} TreeCreationCount(p: seq<Interaction>)
    requires FollowsTree(p)
    ensures CreationCount(p) == if p[|p| - 1] == PickOther || p[|p| - 1] == ReportYes then 1 else 0
  {
    StepResponses();
    var n := |p|;
    if n > 1 {
      TreeCreationCount(p[..n - 1]);
    } else {
      assert p[..0] == [];
    }
  }

  /** Along any flow a ticket is created at most once, only as its last step,
      and a complete flow creates one exactly when it ends with `other` or
      "yes, I filed a report"; otherwise it ends on a cleared prompt. */
  lemma CreatesAtMostOnce(p: seq<Interaction>)
    requires IsFlow(p)
    ensures CreationCount(p) <= 1
    ensures CreationCount(p) == 1 <==> Respond(p[|p| - 1], None).CreateTicket?
    ensures IsComplete(p) ==>
      (CreationCount(p) == 1 <==> p[|p| - 1] == PickOther || p[|p| - 1] == ReportYes)
    ensures IsComplete(p) && CreationCount(p) == 0 ==>
      Respond(p[|p| - 1], None).Update? && Respond(p[|p| - 1], None).rows == []
  {
    StepResponses();
    FlowsFollowTree(p);
    TreeCreationCount(p);
    CompleteIff(p);
  }

  /** The Close Ticket row posted in every new ticket offers exactly the close
      button, and pressing it archives the ticket. */
  lemma CloseRowArchives(parent: Option<Channel>)
    ensures OfferedBy([CloseRow]) == {Button(CloseTicketBtn)}
    ensures Respond(Button(CloseTicketBtn), parent) == ArchiveTicket("Ticket closed.")
  {
    assert [CloseRow][1..] == [];
  }

  /** A category found by name, or the one the bot creates, passes the `/close` guard. */
  lemma CloseAllowedInTicketsCategory(c: Channel)
    requires IsTicketsCategory(c)
    ensures CloseAllowed(Some(c))
  {
    var name := Lower(c.name);
    assert name[..6] == "ticket";
  }

  /** A configured category whose name lacks `ticket` fails the guard, so `/close`
      is refused in every ticket under it. */
  lemma CloseRefusedUnderOtherName(c: Channel)
    requires c.kind == GuildCategory && c.name == "Support"
    ensures Respond(Command("close"), Some(c)) == Reply(CloseRefused, true, [])
  {
    var name := Lower(c.name);
    assert name == "support" by {
      assert forall i :: 0 <= i < 7 ==> name[i] == "support"[i];
    }
    assert !Contains(name, "ticket");
  }
}
