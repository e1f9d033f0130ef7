/**
 * The feedback page: when its form may be submitted, the `feedback` record it inserts
 * (with the signed-in user's e-mail as the fallback), and the reset after success.
 */
module Feedback {
  import opened Wrappers
  import opened Text
  import opened Backend

  datatype FeedbackForm = FeedbackForm(kind: string, title: string, description: string, email: string)

  /** The ids of `FEEDBACK_TYPES`, the only values the type buttons set. */
  const FeedbackTypes: seq<string> := ["feature", "improvement", "bug", "other"]

  /** The form as it starts and as a successful submission leaves it. */
  const InitialFeedbackForm: FeedbackForm := FeedbackForm("feature", "", "", "")

  const MinDescriptionLength: nat := 20
  const PendingStatus: string := "pending"

  /** The submit button: disabled while loading, for an empty title (not trimmed) and for
      a description shorter than 20 UTF-16 code units. */
  predicate CanSubmit(loading: bool, form: FeedbackForm) {
    !loading && form.title != [] && Utf16Length(form.description) >= MinDescriptionLength
  }

  /** The button never offers a submission while loading; the title is not trimmed, so a
      title of one space is enough, while a description of 19 code units is not; the
      length is in UTF-16 code units, so 20 characters always suffice. */
  lemma SubmitRule(form: FeedbackForm)
    ensures !CanSubmit(true, form)
    ensures Utf16Length(form.description) >= MinDescriptionLength ==> CanSubmit(false, form.(title := " "))
    ensures Utf16Length(form.description) == MinDescriptionLength - 1 ==> !CanSubmit(false, form)
    ensures |form.description| >= MinDescriptionLength ==> CanSubmit(false, form.(title := " "))
    ensures form.title == [] ==> !CanSubmit(false, form)
  {
  }

  /** A row of `feedback`. */
  datatype FeedbackRecord = FeedbackRecord(
    userId: Option<string>,
    kind: string,
    title: string,
    description: string,
    email: Option<string>,
    status: string)

  /** `formData.email || user?.email || null`. */
  function ContactEmail(typed: string, session: Session): (e: Option<string>)
    ensures typed != [] ==> e == Some(typed)
    ensures typed == [] && session.SignedIn? && Filled(session.email) ==> e == session.email
    ensures typed == [] && !(session.SignedIn? && Filled(session.email)) ==> e == None
    ensures e.Some? ==> e.value != []
  {
    if typed != [] then Some(typed)
    else if session.SignedIn? && Filled(session.email) then session.email
    else None
  }

  /** The inserted record: the form's text unchanged, the user if any, status 'pending'. */
  function FeedbackOf(form: FeedbackForm, session: Session): (r: FeedbackRecord)
    ensures r.kind == form.kind && r.title == form.title && r.description == form.description
    ensures r.userId == if session.SignedIn? then NullIfEmpty(session.id) else None
    ensures r.email == ContactEmail(form.email, session)
    ensures r.status == PendingStatus
  {
    FeedbackRecord(if session.SignedIn? then NullIfEmpty(session.id) else None,
                   form.kind, form.title, form.description, ContactEmail(form.email, session), PendingStatus)
  }

  /** Anonymous feedback carries no user, and its e-mail is only what was typed. */
  lemma AnonymousFeedback(form: FeedbackForm)
    ensures FeedbackOf(form, Anonymous).userId == None
    ensures FeedbackOf(form, Anonymous).email == NullIfEmpty(form.email)
  {
  }

  /** Every record has one of the four feedback types. */
  predicate KnownKinds(rows: seq<FeedbackRecord>) {
    forall i :: 0 <= i < |rows| ==> rows[i].kind in FeedbackTypes
  }

  /** The page's state. */
  class FeedbackPage {
    var form: FeedbackForm
    var loading: bool

    /** The selected type is always one of the buttons' ids. */
    predicate Valid()
      reads this
    {
      form.kind in FeedbackTypes
    }

    constructor ()
      ensures form == InitialFeedbackForm && !loading
      ensures Valid()
    {
      form := InitialFeedbackForm;
      loading := false;
    }

    /** A type button: `{ ...prev, type: type.id }` for one of the `FEEDBACK_TYPES`. */
    method SetKind(k: string)
      requires k in FeedbackTypes
      modifies this`form
      ensures form == old(form).(kind := k)
      ensures Valid()
    {
      form := form.(kind := k);
    }

    /** The title box. */
    method SetTitle(t: string)
      requires Valid()
      modifies this`form
      ensures form == old(form).(title := t)
      ensures Valid()
    {
      form := form.(title := t);
    }

    /** The description box. */
    method SetDescription(d: string)
      requires Valid()
      modifies this`form
      ensures form == old(form).(description := d)
      ensures Valid()
    {
      form := form.(description := d);
    }

    /** The e-mail box. */
    method SetEmail(e: string)
      requires Valid()
      modifies this`form
      ensures form == old(form).(email := e)
      ensures Valid()
    {
      form := form.(email := e);
    }

    /** `handleSubmit`: insert, and reset the form only when the insert succeeded. The
        stored record's type is one of the four, so a table of known types stays so. */
    method HandleSubmit(session: Session, answer: Reply, store: Table<FeedbackRecord>) returns (ok: bool)
      requires Valid()
      modifies this`form, this`loading, store
      ensures ok <==> answer.Ok?
      ensures store.rows == if ok then old(store.rows) + [FeedbackOf(old(form), session)] else old(store.rows)
      ensures form == if ok then InitialFeedbackForm else old(form)
      ensures !loading
      ensures Valid()
      ensures ok ==> store.rows[|store.rows| - 1].kind in FeedbackTypes
      ensures KnownKinds(old(store.rows)) ==> KnownKinds(store.rows)
    {
      loading := true;
      store.Insert(FeedbackOf(form, session), answer);
      ok := answer.Ok?;
      if ok {
        form := InitialFeedbackForm;
      }
      loading := false;
    }
  }
}
