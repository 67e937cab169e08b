/** The hero slide admin page (app/admin/dashboard/hero/page.tsx): the slide
    list, the add/edit dialog with its form and image preview, image upload,
    save and delete. */
module HeroAdmin {
  import opened Outcomes
  import opened Text

  /** A row of `hero_slides`; the description may come back null. */
  datatype Slide = Slide(
    id: string,
    title: string,
    description: Option<string>,
    image_url: string,
    display_order: int,
    is_active: bool)

  /** The dialog's form record `formData`. */
  datatype SlideForm = SlideForm(title: string, description: string, image_url: string, display_order: int)

  const EmptyForm := SlideForm("", "", "", 0)

  /** The record sent on save. */
  datatype SlidePayload = SlidePayload(
    title: string,
    description: string,
    image_url: string,
    display_order: int,
    is_active: bool)

  /** The write `handleSave` issues: an update of the row with that id, or an insert. */
  datatype SlideWrite = UpdateSlide(id: string, payload: SlidePayload) | InsertSlide(payload: SlidePayload)

  /** The picked file: its name, its declared media type and its size in bytes. */
  datatype FileInfo = FileInfo(name: string, mediaType: string, size: nat)

  /** What the checks before an upload decide. */
  datatype UploadCheck = NoFile | NotAnImage | TooLarge | Accepted

  /** The storage's answer to the upload, with the public URL of the object. */
  datatype UploadOutcome = Uploaded(publicUrl: string) | UploadFailed

  /** 5 MiB. */
  const MaxImageBytes: nat := 5 * 1024 * 1024

  /** `file.type.startsWith('image/')` */
  predicate IsImageType(mediaType: string) {
    |mediaType| >= 6 && mediaType[..6] == "image/"
  }

  /** The checks of `handleImageUpload`, in order: a file must be picked, its type
      must start with "image/", and it may be at most 5 MiB (exactly 5 MiB passes). */
  function CheckUpload(file: Option<FileInfo>): (r: UploadCheck)
    ensures r == Accepted <==> file.Some? && "image/" <= file.value.mediaType && file.value.size <= 5242880
    ensures r == NoFile <==> file.None?
    ensures r == NotAnImage <==> file.Some? && !("image/" <= file.value.mediaType)
  {
    match file
    case None => NoFile
    case Some(f) =>
      if !IsImageType(f.mediaType) then NotAnImage
      else if f.size > MaxImageBytes then TooLarge
      else Accepted
  }

  /** `name.split('.').pop()`: the text after the last dot, or the whole name
      when there is no dot. */
  function FileExtension(name: string): (ext: string)
    ensures |ext| <= |name| && ext == name[|name| - |ext|..]
    ensures '.' !in ext
    ensures '.' !in name ==> ext == name
    ensures '.' in name ==> |ext| < |name| && name[|name| - |ext| - 1] == '.'
  {
    if name == [] then []
    else if name[|name| - 1] == '.' then []
    else FileExtension(name[..|name| - 1]) + [name[|name| - 1]]
  }

  /** The object key `<random>-<Date.now()>.<ext>`: it starts with the random
      token and a dash, and besides the token and the extension it holds at
      least the dash, one digit and the dot. */
  function ObjectKey(token: string, now: nat, fileName: string): (key: string)
    ensures token + "-" <= key
    ensures |key| >= |token| + |FileExtension(fileName)| + 3
  {
    token + "-" + DecimalString(now) + "." + FileExtension(fileName)
  }

  /** The key keeps the uploaded file's extension as its own. */
  lemma ObjectKeyShape(token: string, now: nat, fileName: string)
    ensures FileExtension(ObjectKey(token, now, fileName)) == FileExtension(fileName)
  {
    FileExtensionAfterDot(token + "-" + DecimalString(now), FileExtension(fileName));
  }

  /** A non-empty run of decimal digits that reads as `now`. */
  predicate IsTimestamp(stamp: string, now: nat) {
    stamp != [] && AllDigits(stamp) && DigitsValue(stamp) == now
  }

  /** Between the key's dash and its last dot stands a non-empty run of decimal
      digits that reads back as the upload time. */
  lemma ObjectKeyTimestamp(token: string, now: nat, fileName: string)
    ensures exists stamp :: IsTimestamp(stamp, now) &&
              ObjectKey(token, now, fileName) == token + "-" + stamp + "." + FileExtension(fileName)
  {
    DigitsValueOfDecimal(now);
    assert IsTimestamp(DecimalString(now), now);
  }

  /** The extension of anything ending in a dot and a dot-free tail is that tail. */
  lemma {:induction false} FileExtensionAfterDot(prefix: string, ext: string)
    requires '.' !in ext
    ensures FileExtension(prefix + "." + ext) == ext
    decreases |ext|
  {
    var name := prefix + "." + ext;
    if ext != [] {
      var init := ext[..|ext| - 1];
      assert name[..|name| - 1] == prefix + "." + init;
      assert name[|name| - 1] == ext[|ext| - 1];
      FileExtensionAfterDot(prefix, init);
      assert init + [ext[|ext| - 1]] == ext;
    }
  }

  /** The form `handleOpenDialog` shows: empty for add; for edit the slide's
      fields, with a null description shown as ''. */
  function FormFor(slide: Option<Slide>): (f: SlideForm)
    ensures slide.None? ==> f == EmptyForm
    ensures slide.Some? ==> f.title == slide.value.title && f.image_url == slide.value.image_url
                            && f.display_order == slide.value.display_order
    ensures slide.Some? && slide.value.description.None? ==> f.description == ""
    ensures slide.Some? && slide.value.description.Some? ==> f.description == slide.value.description.value
  {
    match slide
    case None => EmptyForm
    case Some(s) => SlideForm(s.title, s.description.GetOr(""), s.image_url, s.display_order)
  }

  /** The payload of a save: the form's four fields, and always active. */
  function PayloadOf(form: SlideForm): (p: SlidePayload)
    ensures p.title == form.title && p.description == form.description
    ensures p.image_url == form.image_url && p.display_order == form.display_order
    ensures p.is_active
  {
    SlidePayload(form.title, form.description, form.image_url, form.display_order, true)
  }

  /** The write `handleSave` issues: none when the title or the image URL is
      empty; otherwise an update of the selected slide's row when editing, and an
      insert when adding. */
  function SaveRequest(selected: Option<Slide>, form: SlideForm): (w: Option<SlideWrite>)
    ensures w.None? <==> form.title == "" || form.image_url == ""
    ensures w.Some? ==> w.value.payload == PayloadOf(form)
    ensures w.Some? ==> (w.value.UpdateSlide? <==> selected.Some?)
    ensures w.Some? && selected.Some? ==> w.value.id == selected.value.id
  {
    if form.title == "" || form.image_url == "" then None
    else if selected.Some? then Some(UpdateSlide(selected.value.id, PayloadOf(form)))
    else Some(InsertSlide(PayloadOf(form)))
  }

  /** The select `fetchSlides` sends: every slide, by display order. */
  const SlidesByOrder := Select("hero_slides", "*", false, Some("display_order"))

  /** The row the store holds for a saved payload. */
  function StoredSlide(id: string, p: SlidePayload): Slide {
    Slide(id, p.title, Some(p.description), p.image_url, p.display_order, p.is_active)
  }

  /** Saving a form and opening the stored slide for edit again shows the same
      form, and the stored slide is active. */
  lemma SaveThenReopen(id: string, selected: Option<Slide>, form: SlideForm)
    requires SaveRequest(selected, form).Some?
    ensures FormFor(Some(StoredSlide(id, SaveRequest(selected, form).value.payload))) == form
    ensures StoredSlide(id, SaveRequest(selected, form).value.payload).is_active
  {
  }

  class HeroPage {
    var slides: seq<Slide>
    var loading: bool
    var isSaving: bool
    var isUploading: bool
    var dialogOpen: bool
    var selectedSlide: Option<Slide>
    var imagePreview: string
    var formData: SlideForm

    /** The preview always shows the form's image URL. */
    ghost predicate Valid()
      reads this
    {
      imagePreview == formData.image_url
    }

    constructor ()
      ensures Valid()
      ensures slides == [] && loading && !isSaving && !isUploading && !dialogOpen
      ensures selectedSlide == None && imagePreview == "" && formData == EmptyForm
    {
      slides := [];
      loading := true;
      isSaving := false;
      isUploading := false;
      dialogOpen := false;
      selectedSlide := None;
      imagePreview := "";
      formData := EmptyForm;
    }

    /** `fetchSlides`: asks for the slides by display order; on error the list
        stays, otherwise it becomes `data || []`. Loading ends either way. */
    method FetchSlides(outcome: FetchOutcome<Slide>) returns (query: Select)
      requires Valid()
      modifies this`slides, this`loading
      ensures Valid()
      ensures query == SlidesByOrder
      ensures slides == Refreshed(old(slides), outcome) && !loading
    {
      query := SlidesByOrder;
      loading := true;
      slides := Refreshed(slides, outcome);
      loading := false;
    }

    /** `handleOpenDialog(slide?)`: selects the slide (or none), fills the form
        from it and the preview from the form, and opens the dialog. */
    method OpenDialog(slide: Option<Slide>)
      requires Valid()
      modifies this`selectedSlide, this`formData, this`imagePreview, this`dialogOpen
      ensures Valid()
      ensures selectedSlide == slide && formData == FormFor(slide) && dialogOpen
    {
      selectedSlide := slide;
      formData := FormFor(slide);
      imagePreview := formData.image_url;
      dialogOpen := true;
    }

    /** The Cancel button and the dialog's own close. */
    method CloseDialog()
      requires Valid()
      modifies this`dialogOpen
      ensures Valid()
      ensures !dialogOpen
    {
      dialogOpen := false;
    }

    /** `handleImageUpload`. A rejected file attempts no upload and changes
        nothing. An accepted one is stored under `ObjectKey(token, now, name)`;
        on success the form's image URL and the preview become its public URL,
        on failure the form stays. Uploading ends either way. */
    method ImageUpload(file: Option<FileInfo>, token: string, now: nat, outcome: UploadOutcome)
      returns (uploadedKey: Option<string>)
      requires Valid()
      modifies this`formData, this`imagePreview, this`isUploading
      ensures Valid()
      ensures CheckUpload(file) != Accepted ==> uploadedKey == None && unchanged(this)
      ensures CheckUpload(file) == Accepted ==> uploadedKey == Some(ObjectKey(token, now, file.value.name)) && !isUploading
      ensures CheckUpload(file) == Accepted && outcome.Uploaded? ==>
                formData == old(formData).(image_url := outcome.publicUrl) && imagePreview == outcome.publicUrl
      ensures outcome.UploadFailed? ==> formData == old(formData) && imagePreview == old(imagePreview)
    {
      var check := CheckUpload(file);
      if check != Accepted {
        return None;
      }
      isUploading := true;
      uploadedKey := Some(ObjectKey(token, now, file.value.name));
      if outcome.Uploaded? {
        formData := formData.(image_url := outcome.publicUrl);
        imagePreview := outcome.publicUrl;
      }
      isUploading := false;
    }

    /** `handleRemoveImage`: clears the image URL and the preview. */
    method RemoveImage()
      requires Valid()
      modifies this`formData, this`imagePreview
      ensures Valid()
      ensures formData == old(formData).(image_url := "") && imagePreview == ""
    {
      formData := formData.(image_url := "");
      imagePreview := "";
    }

    /** The manual image URL field: sets the URL and the preview together. */
    method EditImageUrl(text: string)
      requires Valid()
      modifies this`formData, this`imagePreview
      ensures Valid()
      ensures formData == old(formData).(image_url := text) && imagePreview == text
    {
      formData := formData.(image_url := text);
      imagePreview := text;
    }

    method EditTitle(text: string)
      requires Valid()
      modifies this`formData
      ensures Valid()
      ensures formData == old(formData).(title := text)
    {
      formData := formData.(title := text);
    }

    method EditDescription(text: string)
      requires Valid()
      modifies this`formData
      ensures Valid()
      ensures formData == old(formData).(description := text)
    {
      formData := formData.(description := text);
    }

    /** The Display Order field: the typed text parsed with `parseInt(...) || 0`. */
    method EditDisplayOrder(text: string)
      requires Valid()
      modifies this`formData
      ensures Valid()
      ensures formData == old(formData).(display_order := ParseOrZero(text))
    {
      formData := formData.(display_order := ParseOrZero(text));
    }

    /** `handleSave`. Without a title or an image URL nothing is written and
        nothing changes. Otherwise the write of `SaveRequest` is issued; on
        success the dialog closes and the list is fetched again (with
        `refetch`'s outcome), on failure the dialog and the list stay.
        Saving has ended afterwards in both cases; the form is never touched.
        The second result is the re-fetch select, sent only after a successful write. */
    method Save(outcome: WriteOutcome, refetch: FetchOutcome<Slide>)
      returns (write: Option<SlideWrite>, refetchQuery: Option<Select>)
      requires Valid()
      modifies this`isSaving, this`dialogOpen, this`slides, this`loading
      ensures Valid()
      ensures write == SaveRequest(selectedSlide, formData)
      ensures refetchQuery == (if write.Some? && outcome.Written? then Some(SlidesByOrder) else None)
      ensures write.None? ==> unchanged(this)
      ensures write.Some? ==> !isSaving
      ensures write.Some? && outcome.Written? ==>
                !dialogOpen && slides == Refreshed(old(slides), refetch) && !loading
      ensures write.Some? && outcome.WriteFailed? ==>
                dialogOpen == old(dialogOpen) && slides == old(slides) && loading == old(loading)
    {
      write := SaveRequest(selectedSlide, formData);
      refetchQuery := None;
      if write.None? {
        return;
      }
      isSaving := true;
      if outcome.Written? {
        dialogOpen := false;
        var query := FetchSlides(refetch);
        refetchQuery := Some(query);
      }
      isSaving := false;
    }

    /** `handleDelete(id)`: when the confirm dialog is declined no call is made
        and nothing changes; otherwise the row is deleted and, only on success,
        the list is fetched again; the re-fetch select is the second result. */
    method Delete(id: string, confirmed: bool, outcome: WriteOutcome, refetch: FetchOutcome<Slide>)
      returns (deleted: Option<string>, refetchQuery: Option<Select>)
      requires Valid()
      modifies this`slides, this`loading
      ensures Valid()
      ensures deleted == (if confirmed then Some(id) else None)
      ensures refetchQuery == (if confirmed && outcome.Written? then Some(SlidesByOrder) else None)
      ensures !confirmed || outcome.WriteFailed? ==> unchanged(this)
      ensures confirmed && outcome.Written? ==> slides == Refreshed(old(slides), refetch) && !loading
    {
      if !confirmed {
        return None, None;
      }
      deleted := Some(id);
      refetchQuery := None;
      if outcome.Written? {
        var query := FetchSlides(refetch);
        refetchQuery := Some(query);
      }
    }
  }
}
