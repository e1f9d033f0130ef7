/**
 * The "add project" dialog of the portfolio: the image size limit, the title check, the
 * upload path of the image, the `portfolio_items` record, and the reset after success.
 */
module Portfolio {
  import opened Wrappers
  import opened Text
  import opened Backend

  /** 5 MB, the largest image accepted. */
  const MaxImageBytes: nat := 5 * 1024 * 1024

  /** The selected image file: its name and size in bytes. */
  datatype ImageFile = ImageFile(name: string, size: nat)

  datatype ProjectForm = ProjectForm(title: string, description: string, projectUrl: string, tags: string)

  const EmptyProjectForm: ProjectForm := ProjectForm("", "", "", "")

  /** A row of `portfolio_items`. */
  datatype PortfolioItem = PortfolioItem(
    userId: string,
    title: string,
    description: Option<string>,
    imageUrl: Option<string>,
    projectUrl: Option<string>,
    tags: Option<seq<string>>)

  predicate ImageAccepted(file: ImageFile) {
    file.size <= MaxImageBytes
  }

  /** `tags ? tags.split(',').map(trim).filter(Boolean) : null`. */
  function ParseTags(raw: string): (tags: Option<seq<string>>)
    ensures tags.None? <==> raw == []
    ensures tags.Some? ==> forall i :: 0 <= i < |tags.value| ==> IsListEntry(tags.value[i])
  {
    if raw == [] then None else Some(ParseCommaList(raw))
  }

  /** Text of commas and blanks only is not empty, so it is stored as an empty list. */
  lemma BlankTagsAreEmptyList()
    ensures ParseTags(" , ") == Some([])
  {
    var parts := Split(" , ", ',');
    assert Split(" ", ',') == [" "] by { SplitNoSeparator(" ", ','); }
    SplitAtSeparator(" ", ',', " ");
    assert " , " == " " + [','] + " ";
    TrimAfterSpace([]);
    assert Trim(" ") == [];
  }

  /** Tags typed as a `", "`-separated list come back as that list. */
  lemma TagsRoundTrip(xs: seq<string>)
    requires xs != [] && forall i :: 0 <= i < |xs| ==> IsListEntry(xs[i])
    ensures ParseTags(Join(xs, ", ")) == Some(xs)
  {
    ParseJoinRoundTrip(xs);
    assert Join(xs, ", ") != [] by { assert |Join(xs, ", ")| >= |xs[0]|; }
  }

  /** `<userId>/<timestamp>.<last '.'-piece of the file name>`. */
  function UploadPath(userId: string, now: nat, fileName: string): string {
    userId + "/" + Decimal(now) + "." + LastPiece(fileName, '.')
  }

  /** The extension is what follows the last dot; a name without a dot is its own
      extension; and the user's folder is the first path segment. */
  lemma UploadPathParts(userId: string, now: nat, stem: string, ext: string)
    requires '.' !in ext
    ensures UploadPath(userId, now, stem + "." + ext) == userId + "/" + Decimal(now) + "." + ext
    ensures '.' !in stem ==> UploadPath(userId, now, stem) == userId + "/" + Decimal(now) + "." + stem
    ensures UploadPath(userId, now, stem + "." + ext)[..|userId| + 1] == userId + "/"
  {
    LastPieceAfterSeparator(stem, '.', ext);
    assert stem + "." + ext == stem + ['.'] + ext;
    if '.' !in stem {
      SplitNoSeparator(stem, '.');
    }
  }

  /** The record `handleSubmit` inserts. */
  function ItemOf(form: ProjectForm, userId: string, imageUrl: Option<string>): (item: PortfolioItem)
    ensures item.userId == userId && item.imageUrl == imageUrl
    ensures item.title == Trim(form.title)
    ensures item.description == TrimOrNull(form.description) && item.projectUrl == TrimOrNull(form.projectUrl)
    ensures item.tags == ParseTags(form.tags)
  {
    PortfolioItem(userId, Trim(form.title), TrimOrNull(form.description), imageUrl,
                  TrimOrNull(form.projectUrl), ParseTags(form.tags))
  }

  datatype ProjectOutcome = TitleRequired | UploadFailed | AddFailed | ProjectAdded

  /** Where `handleSubmit` ends: the title check first, then the upload of a chosen image,
      then the insert. */
  function SubmitOutcome(form: ProjectForm, image: Option<ImageFile>, upload: Reply, insert: Reply): (o: ProjectOutcome)
    ensures o == TitleRequired <==> Trim(form.title) == []
    ensures o == UploadFailed <==> Trim(form.title) != [] && image.Some? && upload.Err?
    ensures o == ProjectAdded <==> Trim(form.title) != [] && (image.None? || upload.Ok?) && insert.Ok?
  {
    if Trim(form.title) == [] then TitleRequired
    else if image.Some? && upload.Err? then UploadFailed
    else if insert.Err? then AddFailed
    else ProjectAdded
  }

  /** A title of blanks only stops the submission before any store call; any other title
      is stored trimmed. */
  lemma TitleGuard(form: ProjectForm, image: Option<ImageFile>, upload: Reply, insert: Reply, userId: string, url: Option<string>)
    ensures AllSpace(form.title) <==> SubmitOutcome(form, image, upload, insert) == TitleRequired
    ensures AllSpace(form.title) ==> !UploadAttempted(form, image)
    ensures !AllSpace(form.title) ==> ItemOf(form, userId, url).title != [] && Trimmed(ItemOf(form, userId, url).title)
  {
    TrimShape(form.title);
  }

  /** The upload is attempted once the title is accepted and an image is chosen. */
  predicate UploadAttempted(form: ProjectForm, image: Option<ImageFile>) {
    Trim(form.title) != [] && image.Some?
  }

  /** The dialog's state; `callbacks` counts the calls of `onProjectAdded`. */
  class ProjectDialog {
    const userId: string
    var open: bool
    var loading: bool
    var imageFile: Option<ImageFile>
    var form: ProjectForm
    var callbacks: nat

    constructor (userId: string)
      ensures this.userId == userId
      ensures !open && !loading && imageFile == None && form == EmptyProjectForm && callbacks == 0
    {
      this.userId := userId;
      open := false;
      loading := false;
      imageFile := None;
      form := EmptyProjectForm;
      callbacks := 0;
    }

    /** `handleImageChange`: a file over the limit is refused and the earlier choice kept. */
    method HandleImageChange(file: Option<ImageFile>) returns (refused: bool)
      modifies this`imageFile
      ensures refused <==> file.Some? && !ImageAccepted(file.value)
      ensures file.Some? && ImageAccepted(file.value) ==> imageFile == file
      ensures !(file.Some? && ImageAccepted(file.value)) ==> imageFile == old(imageFile)
    {
      refused := false;
      if file.Some? {
        if !ImageAccepted(file.value) {
          return true;
        }
        imageFile := file;
      }
    }

    method RemoveImage()
      modifies this`imageFile
      ensures imageFile == None
    {
      imageFile := None;
    }

    method SetForm(f: ProjectForm)
      modifies this`form
      ensures form == f
    {
      form := f;
    }

    /** The store calls of an accepted submission: the upload when there is an image,
        then the insert unless the upload failed. */
    static method Write(path: string, hasImage: bool, upload: Reply, item: PortfolioItem, insert: Reply,
                        storage: Table<string>, items: Table<PortfolioItem>)
      modifies storage, items
      ensures storage.rows == if hasImage && upload.Ok? then old(storage.rows) + [path] else old(storage.rows)
      ensures items.rows == if (!hasImage || upload.Ok?) && insert.Ok? then old(items.rows) + [item] else old(items.rows)
    {
      if hasImage {
        storage.Insert(path, upload);
        if upload.Err? {
          return;
        }
      }
      items.Insert(item, insert);
    }

    /** `handleSubmit`. `now` is `Date.now()`; `upload` and `insert` are the backend's
        replies; `publicUrl` is the address storage gives the uploaded file. */
    method HandleSubmit(now: nat, upload: Reply, publicUrl: string, insert: Reply,
                        storage: Table<string>, items: Table<PortfolioItem>)
      returns (outcome: ProjectOutcome)
      modifies this`open, this`loading, this`imageFile, this`form, this`callbacks, storage, items
      ensures outcome == SubmitOutcome(old(form), old(imageFile), upload, insert)
      ensures storage.rows == if UploadAttempted(old(form), old(imageFile)) && upload.Ok?
        then old(storage.rows) + [UploadPath(userId, now, old(imageFile).value.name)]
        else old(storage.rows)
      ensures items.rows == if outcome == ProjectAdded
        then old(items.rows) + [ItemOf(old(form), userId, if old(imageFile).Some? then Some(publicUrl) else None)]
        else old(items.rows)
      ensures outcome == ProjectAdded ==>
        form == EmptyProjectForm && imageFile == None && !open && callbacks == old(callbacks) + 1
      ensures outcome != ProjectAdded ==>
        form == old(form) && imageFile == old(imageFile) && open == old(open) && callbacks == old(callbacks)
      ensures loading == (outcome == TitleRequired && old(loading))
    {
      outcome := SubmitOutcome(form, imageFile, upload, insert);
      if outcome == TitleRequired {
        return;
      }
      var path := UploadPath(userId, now, if imageFile.Some? then imageFile.value.name else "");
      var item := ItemOf(form, userId, if imageFile.Some? then Some(publicUrl) else None);
      Write(path, imageFile.Some?, upload, item, insert, storage, items);
      Finish(outcome == ProjectAdded);
    }

    /** The end of an accepted submission: the reset and the callback after success. */
    method Finish(added: bool)
      modifies this`open, this`loading, this`imageFile, this`form, this`callbacks
      ensures added ==> form == EmptyProjectForm && imageFile == None && !open && callbacks == old(callbacks) + 1
      ensures !added ==> form == old(form) && imageFile == old(imageFile) && open == old(open) && callbacks == old(callbacks)
      ensures !loading
    {
      if added {
        form := EmptyProjectForm;
        imageFile := None;
        open := false;
        callbacks := callbacks + 1;
      }
      loading := false;
    }
  }
}
