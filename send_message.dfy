/**
 * The "send message" dialog: the message check, the `messages` record it inserts, the
 * enable rule of its button, and the reset after a sent message.
 */
module SendMessage {
  import opened Wrappers
  import opened Text
  import opened Backend
  import opened Messages

  datatype MessageForm = MessageForm(subject: string, message: string)

  const EmptyMessageForm: MessageForm := MessageForm("", "")

  /** The Send button: disabled while sending and while the trimmed message is empty. */
  predicate CanSend(sending: bool, form: MessageForm) {
    !sending && Trim(form.message) != []
  }

  /** The button and the handler agree: Send is offered exactly for the messages the
      handler accepts, and never while sending. */
  lemma SendButtonMatchesGuard(sending: bool, form: MessageForm)
    ensures CanSend(sending, form) <==> !sending && !AllSpace(form.message)
    ensures CanSend(false, form) <==> Trim(form.message) != []
  {
    TrimShape(form.message);
  }

  /** The inserted record, stored with the id `id` and time `now` the backend gives it. */
  function MessageOf(form: MessageForm, senderId: string, recipientId: string, id: string, now: int): (m: MessageRow)
    ensures m.senderId == senderId && m.recipientId == recipientId && m.id == id && m.createdAt == now
    ensures m.subject == TrimOrNull(form.subject) && m.message == Trim(form.message)
    ensures !m.read
  {
    MessageRow(id, senderId, recipientId, TrimOrNull(form.subject), Trim(form.message), false, now)
  }

  /** A message sent to someone shows up, unread and new, at the head of their list and
      at the head of the sender's. */
  lemma SentMessageListed(rows: seq<MessageRow>, form: MessageForm, senderId: string, recipientId: string, id: string, now: int)
    ensures var m := MessageOf(form, senderId, recipientId, id, now);
      && Inbox(rows + [m], recipientId) == [m] + Inbox(rows, recipientId)
      && Inbox(rows + [m], senderId) == [m] + Inbox(rows, senderId)
      && IsNew(m, Some(recipientId))
  {
    var m := MessageOf(form, senderId, recipientId, id, now);
    InboxNewestFirst(rows, m, recipientId);
    InboxNewestFirst(rows, m, senderId);
  }

  datatype SendOutcome = MessageRequired | LoginRequired | SendFailed | Sent

  /** The dialog's state; `toMessages` records the navigation to the messages page that
      follows a sent message. */
  class MessageDialog {
    const recipientId: string
    var form: MessageForm
    var sending: bool
    var open: bool
    var toMessages: bool

    constructor (recipientId: string)
      ensures this.recipientId == recipientId
      ensures form == EmptyMessageForm && !sending && open && !toMessages
    {
      this.recipientId := recipientId;
      form := EmptyMessageForm;
      sending := false;
      open := true;
      toMessages := false;
    }

    method SetForm(f: MessageForm)
      modifies this`form
      ensures form == f
    {
      form := f;
    }

    /** `handleSubmit`; `answer` is the backend's reply to the insert, `newId` and `now`
        the id and time it stores. */
    method HandleSubmit(session: Session, answer: Reply, newId: string, now: int, mailbox: Mailbox)
      returns (outcome: SendOutcome)
      modifies this`form, this`sending, this`open, this`toMessages, mailbox
      ensures Trim(old(form).message) == [] ==> outcome == MessageRequired
      ensures Trim(old(form).message) != [] && session.Anonymous? ==> outcome == LoginRequired
      ensures outcome == Sent <==> Trim(old(form).message) != [] && session.SignedIn? && answer.Ok?
      ensures outcome == SendFailed <==> Trim(old(form).message) != [] && session.SignedIn? && answer.Err?
      ensures mailbox.rows == if outcome == Sent
        then old(mailbox.rows) + [MessageOf(old(form), session.id, recipientId, newId, now)]
        else old(mailbox.rows)
      ensures outcome == Sent ==> form == EmptyMessageForm && !open && toMessages
      ensures outcome != Sent ==> form == old(form) && open == old(open) && toMessages == old(toMessages)
      ensures sending == (outcome == MessageRequired && old(sending))
    {
      if Trim(form.message) == [] {
        return MessageRequired;
      }
      sending := true;
      if session.Anonymous? {
        outcome := LoginRequired;
      } else {
        mailbox.Insert(MessageOf(form, session.id, recipientId, newId, now), answer);
        if answer.Ok? {
          outcome := Sent;
          form := EmptyMessageForm;
          open := false;
          toMessages := true;
        } else {
          outcome := SendFailed;
        }
      }
      sending := false;
    }
  }
}
