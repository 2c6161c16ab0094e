/** The movie creation form: field edits, ordered validation that reports the
    first failure, and submission that resets the form after a success. */
module CreatePage {
  import opened Wrappers
  import opened Text
  import opened Records

  datatype FormData = FormData(title: string, category: string, image: string, description: string)

  /** The form's four inputs, by their `name` attribute. */
  datatype Field = Title | Category | Image | Description

  const EmptyForm := FormData("", "", "", "")

  /** `{...prev, [name]: value}`: the named field reads back as the new
      value and the other three keep theirs. */
  function WithField(f: FormData, name: Field, value: string): (g: FormData)
    ensures Get(g, name) == value
    ensures forall other: Field :: other != name ==> Get(g, other) == Get(f, other)
  {
    match name
    case Title => f.(title := value)
    case Category => f.(category := value)
    case Image => f.(image := value)
    case Description => f.(description := value)
  }

  /** The value of one field. */
  function Get(f: FormData, name: Field): string {
    match name
    case Title => f.title
    case Category => f.category
    case Image => f.image
    case Description => f.description
  }

  /** validateForm's checks, in the order they run. */
  datatype Problem = NoTitle | NoCategory | NoImage | NoDescription | BadImageUrl {
    /** The position of the check in validateForm. */
    function Rank(): nat {
      match this
      case NoTitle => 0
      case NoCategory => 1
      case NoImage => 2
      case NoDescription => 3
      case BadImageUrl => 4
    }

    function Message(): string {
      match this
      case NoTitle => "Movie title is required"
      case NoCategory => "Please select a category"
      case NoImage => "Image URL is required"
      case NoDescription => "Movie description is required"
      case BadImageUrl => "Please enter a valid image URL"
    }
  }

  /** Whether check `p` fails on its own. Title, image and description are
      trimmed first; the category is not; the URL is parsed untrimmed. */
  predicate Fails(f: FormData, parsesAsUrl: string -> bool, p: Problem) {
    match p
    case NoTitle => Trim(f.title) == ""
    case NoCategory => f.category == ""
    case NoImage => Trim(f.image) == ""
    case NoDescription => Trim(f.description) == ""
    case BadImageUrl => !parsesAsUrl(f.image)
  }

  /** The message validateForm sets: that of the first failing check, if any. */
  function FirstProblem(f: FormData, parsesAsUrl: string -> bool): (r: Option<Problem>)
    ensures r.None? <==> !IsBlank(f.title) && f.category != "" && !IsBlank(f.image)
                         && !IsBlank(f.description) && parsesAsUrl(f.image)
  {
    TrimEmptyIffBlank(f.title);
    TrimEmptyIffBlank(f.image);
    TrimEmptyIffBlank(f.description);
    if Trim(f.title) == "" then Some(NoTitle)
    else if f.category == "" then Some(NoCategory)
    else if Trim(f.image) == "" then Some(NoImage)
    else if Trim(f.description) == "" then Some(NoDescription)
    else if !parsesAsUrl(f.image) then Some(BadImageUrl)
    else None
  }

  /** The reported problem is one that fails and every earlier check passes;
      no problem is reported exactly when no check fails. */
  lemma FirstProblemIsFirst(f: FormData, parsesAsUrl: string -> bool)
    ensures var r := FirstProblem(f, parsesAsUrl);
      (r.Some? ==> (Fails(f, parsesAsUrl, r.value)
                    && forall p: Problem :: p.Rank() < r.value.Rank() ==> !Fails(f, parsesAsUrl, p)))
      && (r.None? <==> forall p: Problem :: !Fails(f, parsesAsUrl, p))
  {
    var r := FirstProblem(f, parsesAsUrl);
    forall p: Problem | r.Some? && p.Rank() < r.value.Rank()
      ensures !Fails(f, parsesAsUrl, p)
    {
      match p
      case NoTitle =>
      case NoCategory =>
      case NoImage =>
      case NoDescription =>
      case BadImageUrl =>
    }
    if r.Some? {
      assert Fails(f, parsesAsUrl, r.value);
    } else {
      forall p: Problem ensures !Fails(f, parsesAsUrl, p) {
        match p
        case NoTitle =>
        case NoCategory =>
        case NoImage =>
        case NoDescription =>
        case BadImageUrl =>
      }
    }
  }

  /** What came back from `fetch('/api/movies', {method: 'POST', ...})` and
      `response.json()`: a failure of either, or the reply's `success` flag
      and its string-valued members. */
  datatype FetchOutcome = NetworkError | Answered(success: bool, members: map<string, string>)

  const DefaultFailure := "Failed to create movie"
  const NetworkFailure := "Failed to create movie. Please try again."
  /** As the source has it, with its emoji stored mis-decoded. */
  const CreatedMessage := "Movie created successfully! \U{201A}\U{FA}\U{AE}"

  /** `setError(data.messages || 'Failed to create movie')`, as written: the
      member read is `messages`. */
  function ReplyErrorAsWritten(members: map<string, string>): string {
    if "messages" in members && members["messages"] != "" then members["messages"] else DefaultFailure
  }

  /** The backend's envelope has no `messages` member, so the reading as
      written never shows the server's message. */
  lemma ReplyErrorAsWrittenIgnoresServer(r: Response)
    requires !r.Success() && r.body.message != ""
    ensures ReplyErrorAsWritten(MessageMembers(r)) == DefaultFailure
  {
  }

  /** The evidently intended reading: the envelope's `message`, else the default. */
  function ReplyError(members: map<string, string>): string {
    if "message" in members && members["message"] != "" then members["message"] else DefaultFailure
  }

  /** With the intended reading, a failed create shows the server's message,
      and the default only when that message is empty. */
  lemma ReplyErrorShowsServer(r: Response)
    requires !r.Success()
    ensures r.body.message != "" ==> ReplyError(MessageMembers(r)) == r.body.message
    ensures r.body.message == "" ==> ReplyError(MessageMembers(r)) == DefaultFailure
  {
  }

  /** The page's state. `parsesAsUrl` stands for `new URL(s)` not throwing. */
  class Form {
    const parsesAsUrl: string -> bool
    var formData: FormData
    var error: string
    var success: string
    var loading: bool

    constructor (parsesAsUrl: string -> bool)
      ensures this.parsesAsUrl == parsesAsUrl
      ensures formData == EmptyForm && error == "" && success == "" && !loading
    {
      this.parsesAsUrl := parsesAsUrl;
      formData, error, success, loading := EmptyForm, "", "", false;
    }

    /** handleInputChange: only the named field changes, and any error is cleared. */
    method InputChange(name: Field, value: string)
      modifies this`formData, this`error
      ensures formData == WithField(old(formData), name, value)
      ensures error == ""
    {
      formData := WithField(formData, name, value);
      if error != "" {
        error := "";
      }
    }

    /** validateForm: on the first failing check its message becomes the
        error and the answer is false; when all pass the error is left. */
    method ValidateForm() returns (ok: bool)
      modifies this`error
      ensures ok <==> FirstProblem(formData, parsesAsUrl).None?
      ensures !ok ==> error == FirstProblem(formData, parsesAsUrl).value.Message()
      ensures ok ==> error == old(error)
    {
      if Trim(formData.title) == "" {
        error := NoTitle.Message();
        return false;
      }
      if formData.category == "" {
        error := NoCategory.Message();
        return false;
      }
      if Trim(formData.image) == "" {
        error := NoImage.Message();
        return false;
      }
      if Trim(formData.description) == "" {
        error := NoDescription.Message();
        return false;
      }
      if !parsesAsUrl(formData.image) {
        error := BadImageUrl.Message();
        return false;
      }
      return true;
    }

    /** handleSubmit. `outcome` is what the request would bring back; the
        returned `sent` is the body posted, None when no request is made. */
    method Submit(outcome: FetchOutcome) returns (sent: Option<FormData>)
      modifies this`formData, this`error, this`success, this`loading
      ensures FirstProblem(old(formData), parsesAsUrl).Some? ==>
                sent.None? && formData == old(formData) && success == old(success) && loading == old(loading)
                && error == FirstProblem(old(formData), parsesAsUrl).value.Message()
      ensures FirstProblem(old(formData), parsesAsUrl).None? ==> sent == Some(old(formData)) && !loading
      ensures FirstProblem(old(formData), parsesAsUrl).None? && outcome.NetworkError? ==>
                formData == old(formData) && error == NetworkFailure && success == ""
      ensures FirstProblem(old(formData), parsesAsUrl).None? && outcome.Answered? && outcome.success ==>
                formData == EmptyForm && error == "" && success == CreatedMessage
      ensures FirstProblem(old(formData), parsesAsUrl).None? && outcome.Answered? && !outcome.success ==>
                formData == old(formData) && error == ReplyError(outcome.members) && success == ""
    {
      var valid := ValidateForm();
      if !valid {
        return None;
      }
      loading := true;
      error := "";
      success := "";
      sent := Some(formData);
      match outcome {
        case NetworkError =>
          error := NetworkFailure;
        case Answered(ok, members) =>
          if ok {
            success := CreatedMessage;
            formData := EmptyForm;
          } else {
            error := ReplyError(members);
          }
      }
      loading := false;
    }
  }
}
