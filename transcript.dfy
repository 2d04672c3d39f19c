// The transcript written when a ticket is archived: the most recent messages,
// sorted by creation time (a stable sort, as `Array.prototype.sort` is), one
// line per message, joined with newlines, or `No messages.` when there are none.
module Transcript {
  import opened Text

  /** A fetched chat message, reduced to the fields the transcript shows. */
  datatype Message = Message(
    createdTimestamp: int,
    authorTag: string,
    authorId: nat,
    cleanContent: Option<string>,
    attachmentUrls: seq<string>)

  const FetchLimit: nat := 100
  const NoMessages: string := "No messages."

  /** `channel.messages.fetch({ limit: 100 })`: the newest messages of the history, at most 100. */
  function FetchRecent(history: seq<Message>): (r: seq<Message>)
    ensures |r| == if |history| < FetchLimit then |history| else FetchLimit
    ensures r == history[|history| - |r|..]
  {
    if |history| < FetchLimit then history else history[|history| - FetchLimit..]
  }

  predicate SortedByTime(ms: seq<Message>)
  {
    forall i, j :: 0 <= i < j < |ms| ==> ms[i].createdTimestamp <= ms[j].createdTimestamp
  }

  lemma ConsSorted(x: Message, t: seq<Message>)
    requires SortedByTime(t)
    requires t == [] || x.createdTimestamp <= t[0].createdTimestamp
    ensures SortedByTime([x] + t)
  {
    assert forall k :: 0 <= k < |t| ==> t[0].createdTimestamp <= t[k].createdTimestamp;
  }

  /** Puts `m` before the first message that is not older than it. */
  function Insert(m: Message, s: seq<Message>): (r: seq<Message>)
    requires SortedByTime(s)
    ensures SortedByTime(r)
    ensures multiset(r) == multiset(s) + multiset{m}
    ensures r[0] == m || (s != [] && r[0] == s[0])
  {
    if s == [] || m.createdTimestamp <= s[0].createdTimestamp then
      ConsSorted(m, s);
      [m] + s
    else
      var tail := Insert(m, s[1..]);
      assert s == [s[0]] + s[1..];
      ConsSorted(s[0], tail);
      [s[0]] + tail
  }

  /** Insertion sort by `createdTimestamp`, stable. */
  function SortByTime(ms: seq<Message>): (r: seq<Message>)
    ensures SortedByTime(r)
    ensures multiset(r) == multiset(ms)
  {
    if ms == [] then []
    else
      assert ms == [ms[0]] + ms[1..];
      Insert(ms[0], SortByTime(ms[1..]))
  }

  /** The messages created at time `t`, in their order in `ms`. */
  function AtTime(ms: seq<Message>, t: int): seq<Message>
  {
    if ms == [] then []
    else (if ms[0].createdTimestamp == t then [ms[0]] else []) + AtTime(ms[1..], t)
  }

  lemma AtTimeCons(x: Message, s: seq<Message>, t: int)
    ensures AtTime([x] + s, t) == (if x.createdTimestamp == t then [x] else []) + AtTime(s, t)
  {
    assert ([x] + s)[1..] == s;
  }

  lemma {:induction false} InsertAtTime(m: Message, s: seq<Message>, t: int)
    requires SortedByTime(s)
    ensures AtTime(Insert(m, s), t) == (if m.createdTimestamp == t then [m] else []) + AtTime(s, t)
  {
    if s == [] || m.createdTimestamp <= s[0].createdTimestamp {
      AtTimeCons(m, s, t);
    } else {
      var rest := Insert(m, s[1..]);
      var later := AtTime(s[1..], t);
      assert Insert(m, s) == [s[0]] + rest;
      InsertAtTime(m, s[1..], t);
      AtTimeCons(s[0], rest, t);
      AtTimeCons(s[0], s[1..], t);
      assert [s[0]] + s[1..] == s;
      // `m` is strictly newer than `s[0]`, so at most one of them is at time `t`.
      if m.createdTimestamp == t {
        assert AtTime(s, t) == later;
        assert AtTime(Insert(m, s), t) == [m] + later;
      } else {
        assert AtTime(rest, t) == later;
      }
    }
  }

  /** The sort is stable: messages with equal timestamps keep their fetched order. */
  lemma {:induction false} SortIsStable(ms: seq<Message>, t: int)
    ensures AtTime(SortByTime(ms), t) == AtTime(ms, t)
  {
    if ms != [] {
      SortIsStable(ms[1..], t);
      InsertAtTime(ms[0], SortByTime(ms[1..]), t);
    }
  }

  /** `m.cleanContent || ''`. */
  function Content(m: Message): (r: string)
    ensures m.cleanContent.None? ==> r == ""
    ensures m.cleanContent.Some? ==> r == m.cleanContent.value
  {
    match m.cleanContent
    case None => ""
    case Some(text) => text
  }

  const AttachmentsOpen: string := " [attachments: "

  function AttachmentSuffix(urls: seq<string>): (r: string)
    ensures r == "" <==> urls == []
    ensures urls != [] ==> r == AttachmentsOpen + Join(urls, ", ") + "]"
  {
    if |urls| == 0 then "" else AttachmentsOpen + Join(urls, ", ") + "]"
  }

  /** One transcript line: `[ts] tag (id): content`, then the attachment list if any. */
  function Line(m: Message, iso: int -> string): (r: string)
    ensures |r| >= 1 && r[0] == '['
    ensures var head := "[" + iso(m.createdTimestamp) + "] " + m.authorTag + " (" + Decimal(m.authorId) + "): ";
            |head| <= |r| && r[..|head|] == head &&
            r[|head|..] == Content(m) + AttachmentSuffix(m.attachmentUrls)
  {
    "[" + iso(m.createdTimestamp) + "] " + m.authorTag + " (" + Decimal(m.authorId) + "): "
      + Content(m) + AttachmentSuffix(m.attachmentUrls)
  }

  function Lines(ms: seq<Message>, iso: int -> string): (r: seq<string>)
    ensures |r| == |ms|
    ensures forall k :: 0 <= k < |ms| ==> r[k] == Line(ms[k], iso)
  {
    if ms == [] then [] else [Line(ms[0], iso)] + Lines(ms[1..], iso)
  }

  /** The transcript text for the fetched messages. */
  function Render(fetched: seq<Message>, iso: int -> string): (r: string)
    ensures |r| >= 1
    ensures fetched == [] ==> r == NoMessages
  {
    var text := Join(Lines(SortByTime(fetched), iso), "\n");
    if text == "" then NoMessages else text
  }

  /** `<channel-name>-transcript.txt`. */
  function TranscriptFileName(channelName: string): (r: string)
    ensures |r| == |channelName| + 15
    ensures r[..|channelName|] == channelName && r[|channelName|..] == "-transcript.txt"
  {
    channelName + "-transcript.txt"
  }

  /** The transcript reads `No messages.` exactly when nothing was fetched. */
  lemma NoMessagesIff(fetched: seq<Message>, iso: int -> string)
    ensures Render(fetched, iso) == NoMessages <==> fetched == []
  {
    if fetched != [] {
      var sorted := SortByTime(fetched);
      assert |sorted| == |fetched| by {
        assert |multiset(sorted)| == |multiset(fetched)|;
      }
      var lines := Lines(sorted, iso);
      JoinStartsWithFirst(lines, "\n");
      assert Join(lines, "\n")[0] == '[';
      assert NoMessages[0] == 'N';
    }
  }

  /** No message of `ms` renders to a line containing a newline. */
  predicate NewlineFree(ms: seq<Message>, iso: int -> string)
  {
    forall m :: m in ms ==> '\n' !in Line(m, iso)
  }

  /** Otherwise the transcript is one line per fetched message, oldest first, and
      splitting it at newlines recovers the lines (when no line has a newline). */
  lemma RenderLines(fetched: seq<Message>, iso: int -> string)
    requires fetched != []
    requires NewlineFree(fetched, iso)
    ensures SplitOn(Render(fetched, iso), '\n') == Lines(SortByTime(fetched), iso)
    ensures |SplitOn(Render(fetched, iso), '\n')| == |fetched|
  {
    var sorted := SortByTime(fetched);
    assert |sorted| == |fetched| by {
      assert |multiset(sorted)| == |multiset(fetched)|;
    }
    var lines := Lines(sorted, iso);
    forall k | 0 <= k < |lines|
      ensures '\n' !in lines[k]
    {
      assert sorted[k] in multiset(fetched);
    }
    SplitJoin(lines, '\n');
    NoMessagesIff(fetched, iso);
  }

  /** With nothing fetched the transcript is the single line `No messages.`. */
  lemma EmptyTranscript(iso: int -> string)
    ensures SplitOn(Render([], iso), '\n') == [NoMessages]
  {
    NoMessagesIff([], iso);
    assert forall k :: 0 <= k < |NoMessages| ==> NoMessages[k] != '\n';
    SplitWithoutSeparator(NoMessages, '\n');
  }

  lemma FetchKeepsNewlineFree(history: seq<Message>, iso: int -> string)
    requires NewlineFree(history, iso)
    ensures NewlineFree(FetchRecent(history), iso)
  {
    var fetched := FetchRecent(history);
    forall m | m in fetched ensures '\n' !in Line(m, iso) {
      var k :| 0 <= k < |fetched| && fetched[k] == m;
      assert m == history[|history| - |fetched| + k];
    }
  }

  /** A transcript holds at most 100 messages, one line each; when no line has a
      newline it splits into at most 100 lines (the empty history gives the one
      line `No messages.`). */
  lemma TranscriptBounded(history: seq<Message>, iso: int -> string)
    ensures |Lines(SortByTime(FetchRecent(history)), iso)| <= FetchLimit
    ensures NewlineFree(history, iso) ==>
      |SplitOn(Render(FetchRecent(history), iso), '\n')| <= FetchLimit
  {
    var fetched := FetchRecent(history);
    assert |SortByTime(fetched)| == |fetched| by {
      assert |multiset(SortByTime(fetched))| == |multiset(fetched)|;
    }
    if fetched == [] {
      EmptyTranscript(iso);
    } else if NewlineFree(history, iso) {
      FetchKeepsNewlineFree(history, iso);
      RenderLines(fetched, iso);
    }
  }
}
