/** The create-article page (src/app/admin/articles/add/page.tsx): the form
    rule, the thumbnail picker, the submission sequence and the preview. */
module AddArticle {

  import opened Types

  /** A file picked in the file input; only its name is used by the page. */
  datatype File = File(name: string)

  /** The form values that `schema` checks. Title and category are registered
      inputs, read from the page as strings from the start; content is only set
      by the editor's `onChange`, so it is absent until the editor reports. */
  datatype ArticleForm = ArticleForm(title: string, category: string, content: Option<string>)

  /** The form before any input: the two registered fields empty, no content. */
  const EmptyForm := ArticleForm("", "", None)

  /** zod 4's own message for a string field that has no value at all. */
  const MissingMessage := "Invalid input: expected string, received undefined"

  /** The message shown under each field, when it has one. */
  datatype FormErrors = FormErrors(title: Option<string>, category: Option<string>, content: Option<string>)

  /** The body of `POST /articles`. */
  datatype ArticlePayload = ArticlePayload(title: string, content: string, categoryId: string, imageUrl: string)

  /** `schema`: each of the three fields must be a non-empty string; every
      empty field gets its own message, and a content the editor never reported
      gets zod's message for a missing value. */
  function Validate(form: ArticleForm): (e: FormErrors)
    ensures e.title.None? <==> form.title != ""
    ensures e.category.None? <==> form.category != ""
    ensures e.content.None? <==> form.content.Some? && form.content.value != ""
    ensures e.title.Some? ==> e.title.value == "Title wajib diisi"
    ensures e.category.Some? ==> e.category.value == "Category wajib dipilih"
    ensures form.content == Some("") ==> e.content == Some("Content wajib diisi")
    ensures form.content.None? ==> e.content == Some(MissingMessage)
  {
    FormErrors(
      if form.title == "" then Some("Title wajib diisi") else None,
      if form.category == "" then Some("Category wajib dipilih") else None,
      match form.content
      case None => Some(MissingMessage)
      case Some(c) => if c == "" then Some("Content wajib diisi") else None)
  }

  predicate NoErrors(e: FormErrors)
  {
    e.title.None? && e.category.None? && e.content.None?
  }

  /** The payload for validated values and an image URL: the form's category
      field is sent as `categoryId`. */
  function Payload(form: ArticleForm, imageUrl: string): (p: ArticlePayload)
    requires form.content.Some?
    ensures p.title == form.title && p.content == form.content.value
    ensures p.categoryId == form.category && p.imageUrl == imageUrl
  {
    ArticlePayload(form.title, form.content.value, form.category, imageUrl)
  }

  /** The preview heading: `watch("title") || "Untitled"`. */
  function PreviewTitle(title: string): (heading: string)
    ensures heading != ""
    ensures title != "" ==> heading == title
    ensures title == "" ==> heading == "Untitled"
  {
    if title == "" then "Untitled" else title
  }

  /** The image URL `onSubmit` sends: "" without a thumbnail (no upload),
      otherwise the upload's answer; None when the upload failed. */
  function ImageUrl(thumbnail: Option<File>, upload: Remote<string>): (url: Option<string>)
    ensures thumbnail.None? ==> url == Some("")
    ensures thumbnail.Some? ==> (url.None? <==> upload.Failed?)
    ensures thumbnail.Some? && upload.Done? ==> url == Some(upload.response)
  {
    if thumbnail.None? then Some("")
    else if upload.Failed? then None
    else Some(upload.response)
  }

  /** Everything that the page keeps in component state. */
  class AddArticlePage {
    var thumbnail: Option<File>
    var previewThumbnail: string
    var fileName: string
    var loading: bool
    var showPreview: bool
    var form: ArticleForm
    var errors: FormErrors
    /** Whether the form has been submitted since the last `reset()`: from then
        on react-hook-form re-runs the schema when a registered input changes. */
    var submitted: bool

    constructor ()
      ensures thumbnail == None && previewThumbnail == "" && fileName == ""
      ensures !loading && !showPreview && !submitted
      ensures form == EmptyForm && errors == FormErrors(None, None, None)
    {
      thumbnail, previewThumbnail, fileName := None, "", "";
      loading, showPreview, submitted := false, false, false;
      form, errors := EmptyForm, FormErrors(None, None, None);
    }

    /** The Preview button opens the preview dialog. */
    method OpenPreview()
      modifies this`showPreview
      ensures showPreview
    {
      showPreview := true;
    }

    /** The preview dialog's Close button. */
    method ClosePreview()
      modifies this`showPreview
      ensures !showPreview
    {
      showPreview := false;
    }

    /** Typing into the registered title input; after a submission its message
        follows the schema, the other messages stay. */
    method TypeTitle(text: string)
      modifies this`form, this`errors
      ensures form == old(form).(title := text)
      ensures submitted ==> errors == old(errors).(title := Validate(form).title)
      ensures !submitted ==> errors == old(errors)
    {
      form := form.(title := text);
      if submitted {
        errors := errors.(title := Validate(form).title);
      }
    }

    /** Choosing in the registered category select; after a submission its
        message follows the schema, the other messages stay. */
    method ChooseCategory(id: string)
      modifies this`form, this`errors
      ensures form == old(form).(category := id)
      ensures submitted ==> errors == old(errors).(category := Validate(form).category)
      ensures !submitted ==> errors == old(errors)
    {
      form := form.(category := id);
      if submitted {
        errors := errors.(category := Validate(form).category);
      }
    }

    /** The editor's `onChange`: `setValue("content", val)`, which stores the
        value but validates nothing, so the errors shown stay as they were. */
    method EditContent(html: string)
      modifies this`form
      ensures form == old(form).(content := Some(html))
      ensures form.content.Some? && form.content.value == html
    {
      form := form.(content := Some(html));
    }

    /** `handleFileChange`: a picked file becomes the thumbnail, with the
        object URL the browser made for it as preview; no file changes nothing. */
    method HandleFileChange(picked: Option<File>, objectUrl: string)
      modifies this`thumbnail, this`previewThumbnail, this`fileName
      ensures picked.None? ==> thumbnail == old(thumbnail) && previewThumbnail == old(previewThumbnail)
                                 && fileName == old(fileName)
      ensures picked.Some? ==> thumbnail == picked && previewThumbnail == objectUrl
                                 && fileName == picked.value.name
    {
      if picked.Some? {
        thumbnail := picked;
        previewThumbnail := objectUrl;
        fileName := picked.value.name;
      }
    }

    /** `handleDeleteThumbnail`: no thumbnail, no preview, no file name. */
    method HandleDeleteThumbnail()
      modifies this`thumbnail, this`previewThumbnail, this`fileName
      ensures thumbnail == None && previewThumbnail == "" && fileName == ""
    {
      thumbnail := None;
      previewThumbnail := "";
      fileName := "";
    }

    /** Cancel: `reset()` empties the form, drops its messages and its
        submitted state; the thumbnail and its preview go too (but not the
        file name label), and the page navigates back. */
    method Cancel()
      modifies this`form, this`errors, this`submitted, this`thumbnail, this`previewThumbnail
      ensures form == EmptyForm && errors == FormErrors(None, None, None) && !submitted
      ensures thumbnail == None && previewThumbnail == ""
    {
      form, errors, submitted := EmptyForm, FormErrors(None, None, None), false;
      thumbnail := None;
      previewThumbnail := "";
    }

    /** The Upload button: the schema runs first; only valid values reach `onSubmit`. */
    method Submit() returns (valid: bool)
      modifies this`errors, this`loading, this`submitted
      ensures errors == Validate(form) && submitted
      ensures valid <==> form.title != "" && form.category != "" && form.content.Some? && form.content.value != ""
      ensures valid ==> loading
      ensures !valid ==> loading == old(loading)
    {
      errors := Validate(form);
      valid := NoErrors(errors);
      submitted := true;
      if valid {
        BeginSubmit();
      }
    }

    /** The first turn of `onSubmit`: the loading flag goes up before any request. */
    method BeginSubmit()
      modifies this`loading
      ensures loading
    {
      loading := true;
    }

    /** The rest of `onSubmit`, after the awaits: upload the thumbnail when there
        is one, post the article, go to the list on success, and lower the
        loading flag whatever happened. `posted` is the body sent, if any. */
    method FinishSubmit(upload: Remote<string>, post: Remote<()>)
      returns (posted: Option<ArticlePayload>, target: Option<string>)
      requires NoErrors(Validate(form))
      modifies this`loading
      ensures !loading
      ensures ImageUrl(thumbnail, upload).None? ==> posted.None? && target.None?
      ensures ImageUrl(thumbnail, upload).Some? ==> posted == Some(Payload(form, ImageUrl(thumbnail, upload).value))
      ensures target.Some? <==> ImageUrl(thumbnail, upload).Some? && post.Done?
      ensures target.Some? ==> target.value == "/admin/articles"
    {
      var imageUrl := ImageUrl(thumbnail, upload);
      posted, target := None, None;
      if imageUrl.Some? {
        posted := Some(Payload(form, imageUrl.value));
        if post.Done? {
          target := Some("/admin/articles");
        }
      }
      loading := false;
    }
  }

  /** A corollary of `ImageUrl` and `Payload`: without a thumbnail nothing is
      uploaded and the article is posted with an empty image URL, whatever the
      upload would have answered. */
  lemma NoThumbnailPostsEmptyImage(form: ArticleForm, upload: Remote<string>)
    requires form.content.Some?
    ensures ImageUrl(None, upload) == Some("")
    ensures Payload(form, ImageUrl(None, upload).value) == ArticlePayload(form.title, form.content.value, form.category, "")
  {
  }

  /** A corollary of `Validate`: the form rule accepts exactly the forms with
      three non-empty fields, and never the untouched form. */
  lemma ValidateAcceptsFilledForms(form: ArticleForm)
    ensures NoErrors(Validate(form)) <==>
              form.title != "" && form.category != "" && form.content.Some? && form.content.value != ""
    ensures Validate(EmptyForm) == FormErrors(Some("Title wajib diisi"), Some("Category wajib dipilih"), Some(MissingMessage))
  {
  }
}
