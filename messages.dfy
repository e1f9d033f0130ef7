/**
 * The messages page and the `messages` table behind it: the conversation list of the
 * signed-in user (newest first), which messages count as received and new, the day
 * label of a message, marking as read, and the recipient of a reply.
 */
module Messages {
  import opened Wrappers
  import opened Text
  import opened Backend
  import opened Seqs

  /** A row of `messages`; `createdAt` is the creation time in epoch milliseconds. */
  datatype MessageRow = MessageRow(
    id: string,
    senderId: string,
    recipientId: string,
    subject: Option<string>,
    message: string,
    read: bool,
    createdAt: int)

  /** `message.recipient_id === currentUserId`. */
  predicate IsReceived(m: MessageRow, currentUserId: Option<string>) {
    currentUserId == Some(m.recipientId)
  }

  /** The other party of a message: its sender when received, else its recipient. */
  function CounterpartId(m: MessageRow, currentUserId: Option<string>): (id: string)
    ensures IsReceived(m, currentUserId) ==> id == m.senderId
    ensures !IsReceived(m, currentUserId) ==> id == m.recipientId
  {
    if IsReceived(m, currentUserId) then m.senderId else m.recipientId
  }

  /** The highlight and the "New" badge. */
  predicate IsNew(m: MessageRow, currentUserId: Option<string>) {
    !m.read && IsReceived(m, currentUserId)
  }

  /** For a message between two different people, one of them being the viewer, the
      counterpart is the other one. */
  lemma CounterpartIsTheOtherParty(m: MessageRow, userId: string)
    requires m.senderId != m.recipientId
    requires m.senderId == userId || m.recipientId == userId
    ensures CounterpartId(m, Some(userId)) != userId
    ensures CounterpartId(m, Some(userId)) == m.senderId || CounterpartId(m, Some(userId)) == m.recipientId
  {
  }

  // ---------------------------------------------------------------------------
  // the day label

  const DayMillis: int := 1000 * 60 * 60 * 24

  /** The label `formatDate` picks; the time of day and the calendar date themselves are
      locale formatting. */
  datatype DayLabel = Today | Yesterday | DaysAgo(days: int) | CalendarDate

  /** `Math.floor((now - created) / 86400000)`; integer division by a positive divisor
      rounds toward minus infinity, as `Math.floor` does. */
  function ElapsedDays(nowMs: int, createdMs: int): (days: int)
    ensures days * DayMillis <= nowMs - createdMs < (days + 1) * DayMillis
  {
    (nowMs - createdMs) / DayMillis
  }

  function FormatDate(nowMs: int, createdMs: int): (d: DayLabel)
    ensures d == Today <==> ElapsedDays(nowMs, createdMs) == 0
    ensures d == Yesterday <==> ElapsedDays(nowMs, createdMs) == 1
    ensures d.DaysAgo? <==> ElapsedDays(nowMs, createdMs) < 7 && ElapsedDays(nowMs, createdMs) != 0 && ElapsedDays(nowMs, createdMs) != 1
    ensures d.DaysAgo? ==> d.days == ElapsedDays(nowMs, createdMs)
    ensures d == CalendarDate <==> ElapsedDays(nowMs, createdMs) >= 7
  {
    var days := ElapsedDays(nowMs, createdMs);
    if days == 0 then Today
    else if days == 1 then Yesterday
    else if days < 7 then DaysAgo(days)
    else CalendarDate
  }

  /** The labels in elapsed milliseconds: "Today" for less than a day, "Yesterday" for
      one to two days, "n days ago" for 2 to 7 days; a message dated in the future (a
      clock ahead of this one) gets a negative count of days ago. */
  lemma FormatDateByElapsed(nowMs: int, createdMs: int)
    ensures var e := nowMs - createdMs;
      && (FormatDate(nowMs, createdMs) == Today <==> 0 <= e < DayMillis)
      && (FormatDate(nowMs, createdMs) == Yesterday <==> DayMillis <= e < 2 * DayMillis)
      && (FormatDate(nowMs, createdMs) == CalendarDate <==> e >= 7 * DayMillis)
      && (e < 0 ==> FormatDate(nowMs, createdMs).DaysAgo? && FormatDate(nowMs, createdMs).days < 0)
  {
    var e := nowMs - createdMs;
    var days := ElapsedDays(nowMs, createdMs);
    if 0 <= e < DayMillis {
      assert days == 0 by { ElapsedDaysUnique(e, days, 0); }
    }
    if DayMillis <= e < 2 * DayMillis {
      assert days == 1 by { ElapsedDaysUnique(e, days, 1); }
    }
    if days >= 7 {
      assert days * DayMillis >= 7 * DayMillis;
    }
    if e >= 7 * DayMillis {
      assert (days + 1) * DayMillis > 7 * DayMillis;
    }
    if e < 0 {
      assert days * DayMillis < 0;
    }
  }

  /** The day count is the only integer bracketing the elapsed time. */
  lemma ElapsedDaysUnique(e: int, a: int, b: int)
    requires a * DayMillis <= e < (a + 1) * DayMillis
    requires b * DayMillis <= e < (b + 1) * DayMillis
    ensures a == b
  {
  }

  // ---------------------------------------------------------------------------
  // the conversation list

  predicate IsParty(m: MessageRow, userId: string) {
    m.senderId == userId || m.recipientId == userId
  }

  /** `.or(sender_id.eq.<user>, recipient_id.eq.<user>).order('created_at', descending)`. */
  function Inbox(rows: seq<MessageRow>, userId: string): seq<MessageRow> {
    Reverse(Filter(rows, (m: MessageRow) => IsParty(m, userId)))
  }

  /** The list holds exactly the messages the user sent or received. */
  lemma InboxMembers(rows: seq<MessageRow>, userId: string)
    ensures forall m :: m in Inbox(rows, userId) <==> m in rows && IsParty(m, userId)
  {
    ReverseMembers(Filter(rows, (m: MessageRow) => IsParty(m, userId)));
  }

  /** Newest first: a message just stored heads the list of both its parties and leaves
      everyone else's list as it was. */
  lemma InboxNewestFirst(rows: seq<MessageRow>, m: MessageRow, userId: string)
    ensures IsParty(m, userId) ==> Inbox(rows + [m], userId) == [m] + Inbox(rows, userId)
    ensures !IsParty(m, userId) ==> Inbox(rows + [m], userId) == Inbox(rows, userId)
  {
    var keep := (x: MessageRow) => IsParty(x, userId);
    FilterAppend(rows, m, keep);
    if keep(m) {
      ReverseAppend(Filter(rows, keep), m);
    } else {
      assert Filter(rows, keep) + [] == Filter(rows, keep);
    }
  }

  // ---------------------------------------------------------------------------
  // marking as read

  /** `update({ read: true }).eq('id', id)`. */
  function MarkedRead(rows: seq<MessageRow>, id: string): (r: seq<MessageRow>)
    ensures |r| == |rows|
    ensures forall i :: 0 <= i < |rows| ==>
      (rows[i].id == id ==> r[i] == rows[i].(read := true)) && (rows[i].id != id ==> r[i] == rows[i])
  {
    seq(|rows|, i requires 0 <= i < |rows| => if rows[i].id == id then rows[i].(read := true) else rows[i])
  }

  /** Marking twice is marking once. */
  lemma MarkedReadIdempotent(rows: seq<MessageRow>, id: string)
    ensures MarkedRead(MarkedRead(rows, id), id) == MarkedRead(rows, id)
  {
  }

  /** A message no longer shows as new to anyone once it is marked as read. */
  lemma MarkedNoLongerNew(rows: seq<MessageRow>, id: string, currentUserId: Option<string>)
    ensures forall i :: 0 <= i < |rows| && rows[i].id == id ==> !IsNew(MarkedRead(rows, id)[i], currentUserId)
  {
  }

  /** After a message is marked read, the reloaded list shows it as new to nobody: the
      highlight and the "New" badge are gone once the list is fetched again. */
  lemma ReloadShowsMarkedAsRead(rows: seq<MessageRow>, id: string, userId: string)
    ensures forall x :: x in Inbox(MarkedRead(rows, id), userId) && x.id == id ==> !IsNew(x, Some(userId))
  {
    var r := MarkedRead(rows, id);
    InboxMembers(r, userId);
    forall x | x in Inbox(r, userId) && x.id == id
      ensures !IsNew(x, Some(userId))
    {
      var i :| 0 <= i < |r| && r[i] == x;
      assert rows[i].id == id;
    }
  }

  // ---------------------------------------------------------------------------
  // the recipient of a reply

  /** A joined row as the client sees it: column name to value. */
  type JoinedRow = map<string, string>

  /** The profile columns the list joins for both parties:
      `sender:sender_id(full_name, avatar_url, user_type)`, and the same for the recipient. */
  const JoinedColumns: set<string> := {"full_name", "avatar_url", "user_type"}

  /** The part of a profile row a join with `columns` delivers. */
  function Project(profile: JoinedRow, columns: set<string>): (r: JoinedRow)
    ensures r.Keys == profile.Keys * columns
  {
    map c | c in profile.Keys && c in columns :: profile[c]
  }

  /** The Reply button as written: `otherUser.id`, read from the joined counterpart
      profile, which never carries an `id`, so the recipient is always undefined. */
  function ReplyRecipientAsWritten(otherUser: JoinedRow): Option<string> {
    if "id" in otherUser then Some(otherUser["id"]) else None
  }

  lemma ReplyRecipientAsWrittenIsMissing(profile: JoinedRow)
    ensures ReplyRecipientAsWritten(Project(profile, JoinedColumns)) == None
  {
    assert "id" !in JoinedColumns;
  }

  /** The reply target: the counterpart's id from the message's own columns, and the
      name `full_name || 'User'` from the join. */
  datatype ReplyTarget = ReplyTarget(id: string, name: string)

  const FallbackName: string := "User"

  function ReplyRecipient(m: MessageRow, currentUserId: Option<string>, otherUser: JoinedRow): (t: ReplyTarget)
    ensures t.id == CounterpartId(m, currentUserId)
    ensures t.name != []
  {
    var name := if "full_name" in otherUser && otherUser["full_name"] != [] then otherUser["full_name"] else FallbackName;
    ReplyTarget(CounterpartId(m, currentUserId), name)
  }

  /** The corrected reply goes to the other party of the conversation. */
  lemma ReplyGoesToOtherParty(m: MessageRow, userId: string, otherUser: JoinedRow)
    requires m.senderId != m.recipientId && IsParty(m, userId)
    ensures var t := ReplyRecipient(m, Some(userId), otherUser);
      t.id != userId && (t.id == m.senderId || t.id == m.recipientId)
  {
    CounterpartIsTheOtherParty(m, userId);
  }

  // ---------------------------------------------------------------------------
  // state

  /** The `messages` table. */
  class Mailbox {
    var rows: seq<MessageRow>

    constructor (initial: seq<MessageRow>)
      ensures rows == initial
    {
      rows := initial;
    }

    method Insert(m: MessageRow, answer: Reply)
      modifies this
      ensures rows == if answer.Ok? then old(rows) + [m] else old(rows)
    {
      if answer.Ok? {
        rows := rows + [m];
      }
    }

    method MarkRead(id: string, answer: Reply)
      modifies this
      ensures rows == if answer.Ok? then MarkedRead(old(rows), id) else old(rows)
    {
      if answer.Ok? {
        rows := MarkedRead(rows, id);
      }
    }
  }

  /** The page's state. */
  class MessagesPage {
    var messages: seq<MessageRow>
    var loading: bool
    var currentUserId: Option<string>
    var replyDialogOpen: bool
    var replyRecipient: Option<ReplyTarget>

    constructor ()
      ensures messages == [] && loading && currentUserId == None && !replyDialogOpen && replyRecipient == None
    {
      messages := [];
      loading := true;
      currentUserId := None;
      replyDialogOpen := false;
      replyRecipient := None;
    }

    /** `checkAuthAndLoadMessages`: nobody signed in means a redirect and nothing loaded;
        otherwise the user's conversation list, or the old list when the query fails. */
    method CheckAuthAndLoad(session: Session, answer: Reply, mailbox: Mailbox) returns (redirect: bool)
      modifies this`messages, this`loading, this`currentUserId
      ensures redirect <==> session.Anonymous?
      ensures redirect ==> messages == old(messages) && loading == old(loading) && currentUserId == old(currentUserId)
      ensures !redirect ==> currentUserId == Some(session.id) && !loading
      ensures !redirect ==> messages == if answer.Ok? then Inbox(mailbox.rows, session.id) else old(messages)
      ensures !redirect && answer.Ok? ==> forall m :: m in messages <==> m in mailbox.rows && IsParty(m, session.id)
    {
      if session.Anonymous? {
        return true;
      }
      redirect := false;
      currentUserId := Some(session.id);
      if answer.Ok? {
        messages := Inbox(mailbox.rows, session.id);
        InboxMembers(mailbox.rows, session.id);
      }
      loading := false;
    }

    /** `markAsRead`: a message that was not received is left alone. Only the stored row
        changes: this handler neither updates nor reloads the list on screen, so its
        highlight and "New" badge stay until the reply dialog closes
        (`ReplyDialogOpenChange`) or the page loads again. */
    method MarkAsRead(messageId: string, isReceived: bool, answer: Reply, mailbox: Mailbox)
      modifies mailbox
      ensures messages == old(messages)
      ensures mailbox.rows == if isReceived && answer.Ok? then MarkedRead(old(mailbox.rows), messageId) else old(mailbox.rows)
    {
      if !isReceived {
        return;
      }
      mailbox.MarkRead(messageId, answer);
    }

    /** The Reply button, corrected: open the dialog addressed to the counterpart's id
        taken from the message's own columns (`ReplyRecipient`), where the page as written
        passes `otherUser.id`, which is always missing (`ReplyRecipientAsWritten`); the
        message is marked read only if it is new to this user. The list on screen stays
        as it is while the dialog is open. */
    method Reply(m: MessageRow, otherUser: JoinedRow, answer: Reply, mailbox: Mailbox)
      modifies this`replyDialogOpen, this`replyRecipient, mailbox
      ensures replyRecipient == Some(ReplyRecipient(m, currentUserId, otherUser)) && replyDialogOpen
      ensures mailbox.rows == if IsNew(m, currentUserId) && answer.Ok? then MarkedRead(old(mailbox.rows), m.id) else old(mailbox.rows)
      ensures messages == old(messages)
    {
      replyRecipient := Some(ReplyRecipient(m, currentUserId, otherUser));
      replyDialogOpen := true;
      if IsNew(m, currentUserId) {
        MarkAsRead(m.id, IsReceived(m, currentUserId), answer, mailbox);
      }
    }

    /** The reply dialog's `onOpenChange`: the flag follows the dialog, and closing it
        reloads the list when a user id is known (`if (currentUserId)`, so an empty id
        loads nothing); a failed reload keeps the old list. */
    method ReplyDialogOpenChange(open: bool, answer: Reply, mailbox: Mailbox)
      modifies this`replyDialogOpen, this`messages
      ensures replyDialogOpen == open
      ensures !open && currentUserId.Some? && currentUserId.value != [] ==>
        messages == if answer.Ok? then Inbox(mailbox.rows, currentUserId.value) else old(messages)
      ensures !(!open && currentUserId.Some? && currentUserId.value != []) ==> messages == old(messages)
    {
      replyDialogOpen := open;
      if !open && currentUserId.Some? && currentUserId.value != [] {
        if answer.Ok? {
          messages := Inbox(mailbox.rows, currentUserId.value);
        }
      }
    }
  }
}
