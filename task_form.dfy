/**
 * The "Create New Task" form: its fields and error record, the title rule, the
 * conversion of comma-separated tags into a JSON array, and the payload handed to
 * `onSubmit`. The pure tag processing is a chain of functions; the form's state
 * is a class whose handlers update it.
 */
module TaskForm {
  import opened Wrappers
  import opened Seqs
  import opened Text
  import opened Json
  import opened FormState
  import TaskValidators
  import TaskItemModel

  const TitleRequired := "Title is required"
  const TitleTooLong := "Title must be less than 200 characters"
  const MaxTitleLength: nat := 200

  /** The form's fields; the priority select starts at Medium. */
  datatype FormData = FormData(title: string, description: string, priority: int, dueDate: string, tags: string)

  function InitialFormData(): (f: FormData)
    ensures f.title == f.description == f.dueDate == f.tags == "" && f.priority == 1
  {
    FormData("", "", 1, "", "")
  }

  /** One call of `handleInputChange`: the field that changed and its new value. */
  datatype Edit = Title(text: string) | Description(text: string) | Priority(level: int)
                | DueDate(text: string) | Tags(text: string)
  {
    /** The name the handler is called with, which is also the error-record key. */
    function Field(): string {
      match this
      case Title(_) => "title"
      case Description(_) => "description"
      case Priority(_) => "priority"
      case DueDate(_) => "dueDate"
      case Tags(_) => "tags"
    }
  }

  /** `{ ...prev, [field]: value }`. */
  function Apply(f: FormData, e: Edit): FormData {
    match e
    case Title(t) => f.(title := t)
    case Description(t) => f.(description := t)
    case Priority(p) => f.(priority := p)
    case DueDate(t) => f.(dueDate := t)
    case Tags(t) => f.(tags := t)
  }

  /** The title rule: required after trimming, then at most 200 code units untrimmed. */
  function TitleError(title: string): Option<string> {
    if Trim(title) == "" then Some(TitleRequired)
    else if Utf16Length(title) > MaxTitleLength then Some(TitleTooLong)
    else None
  }

  /**
   * The error record `validateForm` builds. The tag branch has no entry: splitting,
   * trimming and `JSON.stringify` of an array of strings cannot throw, so its
   * `catch` is never reached.
   */
  function FormErrors(f: FormData): map<string, string> {
    match TitleError(f.title)
    case None => map[]
    case Some(m) => map["title" := m]
  }

  // ---------------------------------------------------------------------------
  // Tags

  /** One piece, trimmed, or nothing when trimming empties it. */
  function CleanPiece(piece: string): (r: seq<string>)
    ensures |r| <= 1
  {
    if Trim(piece) == "" then [] else [Trim(piece)]
  }

  /** Trims every piece and drops the empty ones (`.map(tag => tag.trim()).filter(tag => tag)`). */
  function CleanPieces(pieces: seq<string>): (r: seq<string>)
    ensures |r| <= |pieces|
  {
    if pieces == [] then [] else CleanPiece(pieces[0]) + CleanPieces(pieces[1..])
  }

  /** The tags typed into the form, as an array of strings. */
  function CleanTags(input: string): seq<string> {
    CleanPieces(Split(input, ','))
  }

  /** The `tags` field of the payload: "[]" for an empty input, else the JSON array of the cleaned tags. */
  function TagsPayload(input: string): string {
    if input == "" then "[]" else Stringify(CleanTags(input))
  }

  /** What `onSubmit` receives. */
  datatype TaskPayload = TaskPayload(title: string, description: Option<string>, priority: int,
                                     dueDate: Option<string>, tags: string)

  function Payload(f: FormData): (p: TaskPayload)
    ensures p.title == Trim(f.title) && p.priority == f.priority
    ensures p.description.None? <==> AllJsWhiteSpace(f.description)
    ensures p.description.Some? ==> p.description.value == Trim(f.description)
    ensures p.dueDate.None? <==> f.dueDate == ""
    ensures p.dueDate.Some? ==> p.dueDate.value == f.dueDate
  {
    TaskPayload(
      Trim(f.title),
      if Trim(f.description) == "" then None else Some(Trim(f.description)),
      f.priority,
      if f.dueDate == "" then None else Some(f.dueDate),
      TagsPayload(f.tags))
  }

  // ---------------------------------------------------------------------------
  // The form's state and handlers

  class TaskFormState {
    var formData: FormData
    var errors: map<string, string>

    constructor ()
      ensures formData == InitialFormData() && errors == map[]
    {
      formData := InitialFormData();
      errors := map[];
    }

    /** `validateForm`: rebuilds the error record and reports whether it is empty. */
    method ValidateForm() returns (valid: bool)
      modifies this
      ensures errors == FormErrors(formData) && formData == old(formData)
      ensures valid <==> errors == map[]
    {
      var newErrors: map<string, string> := map[];
      if Trim(formData.title) == "" {
        newErrors := newErrors["title" := TitleRequired];
      } else if Utf16Length(formData.title) > MaxTitleLength {
        newErrors := newErrors["title" := TitleTooLong];
      }
      errors := newErrors;
      valid := |newErrors| == 0;
    }

    /** `handleSubmit`: nothing is submitted unless validation passes. */
    method HandleSubmit() returns (submitted: Option<TaskPayload>)
      modifies this
      ensures errors == FormErrors(formData) && formData == old(formData)
      ensures submitted.None? <==> errors != map[]
      ensures submitted.Some? ==> submitted.value == Payload(formData)
    {
      var valid := ValidateForm();
      if !valid {
        return None;
      }
      var tags := if formData.tags != "" then Stringify(CleanPieces(Split(formData.tags, ','))) else "[]";
      var description := Trim(formData.description);
      submitted := Some(TaskPayload(
        Trim(formData.title),
        if description == "" then None else Some(description),
        formData.priority,
        if formData.dueDate == "" then None else Some(formData.dueDate),
        tags));
    }

    /** `handleInputChange`: sets one field and blanks that field's message if it has one. */
    method HandleInputChange(e: Edit)
      modifies this
      ensures formData == Apply(old(formData), e)
      ensures errors == ClearError(old(errors), e.Field())
    {
      formData := Apply(formData, e);
      if HasError(errors, e.Field()) {
        errors := errors[e.Field() := ""];
      }
    }
  }

  // ---------------------------------------------------------------------------
  // Properties

  /** The form is valid exactly when the trimmed title is non-empty and the title fits in 200 code units. */
  lemma ValidIff(f: FormData)
    ensures FormErrors(f) == map[] <==> !AllJsWhiteSpace(f.title) && Utf16Length(f.title) <= MaxTitleLength
    ensures "tags" !in FormErrors(f) && FormErrors(f).Keys <= {"title"}
  {
    if TitleError(f.title).Some? {
      assert "title" in FormErrors(f);
    }
  }

  /** Which title message appears: "required" wins over "too long", and there is at most one. */
  lemma TitleMessages(f: FormData)
    ensures AllJsWhiteSpace(f.title) ==> FormErrors(f) == map["title" := TitleRequired]
    ensures !AllJsWhiteSpace(f.title) && Utf16Length(f.title) > MaxTitleLength ==> FormErrors(f) == map["title" := TitleTooLong]
  {
  }

  /** Editing a field sets that field and leaves every other field as it was. */
  lemma EditTouchesOneField(f: FormData, e: Edit)
    ensures e.Title? ==> Apply(f, e).title == e.text
    ensures e.Description? ==> Apply(f, e).description == e.text
    ensures e.Priority? ==> Apply(f, e).priority == e.level
    ensures e.DueDate? ==> Apply(f, e).dueDate == e.text
    ensures e.Tags? ==> Apply(f, e).tags == e.text
    ensures e.Field() != "title" ==> Apply(f, e).title == f.title
    ensures e.Field() != "description" ==> Apply(f, e).description == f.description
    ensures e.Field() != "priority" ==> Apply(f, e).priority == f.priority
    ensures e.Field() != "dueDate" ==> Apply(f, e).dueDate == f.dueDate
    ensures e.Field() != "tags" ==> Apply(f, e).tags == f.tags
  {
  }

  /** Cleaning works piece by piece, so tags keep the order they were typed in. */
  lemma {:induction false} CleanPiecesAppend(a: seq<string>, b: seq<string>)
    ensures CleanPieces(a + b) == CleanPieces(a) + CleanPieces(b)
  {
    if a == [] {
      assert a + b == b;
    } else {
      CleanPiecesAppend(a[1..], b);
      CleanPiecesStep(a, b);
    }
  }

  lemma CleanPiecesStep(a: seq<string>, b: seq<string>)
    requires a != [] && CleanPieces(a[1..] + b) == CleanPieces(a[1..]) + CleanPieces(b)
    ensures CleanPieces(a + b) == CleanPieces(a) + CleanPieces(b)
  {
    AppendTail(a, b);
    AppendAssoc(CleanPiece(a[0]), CleanPieces(a[1..]), CleanPieces(b));
  }

  /** The tags of `a,b` are the tags of `a` followed by the tags of `b`. */
  lemma CleanTagsAppend(a: string, b: string)
    ensures CleanTags(a + "," + b) == CleanTags(a) + CleanTags(b)
  {
    SplitAppend(a, b, ',');
    CleanPiecesAppend(Split(a, ','), Split(b, ','));
  }

  /** Every cleaned tag is non-empty, has no white space at either end and contains no comma. */
  lemma {:induction false} CleanPiecesShape(pieces: seq<string>)
    ensures forall i :: 0 <= i < |CleanPieces(pieces)| ==>
      CleanPieces(pieces)[i] != "" && Trim(CleanPieces(pieces)[i]) == CleanPieces(pieces)[i]
  {
    if pieces != [] {
      CleanPiecesShape(pieces[1..]);
      TrimIdempotent(pieces[0]);
    }
  }

  /** Every character of every cleaned tag was typed into the field. */
  lemma {:induction false} CleanPiecesChars(pieces: seq<string>, input: string)
    requires forall i, c :: 0 <= i < |pieces| && c in pieces[i] ==> c in input
    ensures forall i, c :: 0 <= i < |CleanPieces(pieces)| && c in CleanPieces(pieces)[i] ==> c in input
  {
    if pieces != [] {
      CleanPiecesChars(pieces[1..], input);
      TrimChars(pieces[0]);
      assert forall c :: c in pieces[0] ==> c in input;
      var head := CleanPiece(pieces[0]);
      forall i, c | 0 <= i < |CleanPieces(pieces)| && c in CleanPieces(pieces)[i] ensures c in input {
        if i < |head| {
          assert CleanPieces(pieces)[i] == Trim(pieces[0]);
        } else {
          assert CleanPieces(pieces)[i] == CleanPieces(pieces[1..])[i - |head|];
        }
      }
    }
  }

  /** The tags shown by the task list (`parseTags`) are exactly the cleaned tags. */
  lemma TagsRoundTrip(input: string)
    ensures ParseStringArray(TagsPayload(input)) == Some(Strs(CleanTags(input)))
  {
    if input == "" {
      StringifyRoundTrip([]);
      assert Split("", ',') == [""];
      assert CleanTags(input) == [];
    } else {
      StringifyRoundTrip(CleanTags(input));
    }
  }

  /**
   * The server accepts the tag field the form submits, unless the input holds U+0085:
   * .NET counts that character as white space, JavaScript's `trim` does not, so a tag
   * made of it alone is kept by the form and refused by the server's tag rule.
   */
  lemma TagsAcceptedByServer(input: string)
    requires '\U{0085}' !in input
    ensures TaskValidators.BeValidJsonArray(Some(TagsPayload(input)))
  {
    var tags := CleanTags(input);
    if input == "" {
      TagsRoundTrip(input);
    } else {
      CleanPiecesShape(Split(input, ','));
      SplitChars(input, ',');
      CleanPiecesChars(Split(input, ','), input);
      forall i | 0 <= i < |tags| ensures !IsNullOrWhiteSpace(Some(tags[i])) {
        assert tags[i][0] in input;
        assert !IsDotNetWhiteSpace(tags[i][0]);
      }
      TaskValidators.StringifiedTagsAccepted(tags);
    }
  }

  /** The character that separates the two white-space sets: one tag of it alone is refused. */
  lemma NextLineTagRefused()
    ensures !TaskValidators.BeValidJsonArray(Some(TagsPayload("\U{0085}")))
  {
    var input := "\U{0085}";
    SplitNoSeparator(input, ',');
    assert Trim(input) == input;
    assert CleanTags(input) == [input];
    TagsRoundTrip(input);
    assert !TaskValidators.ItemIsNonBlank(Str(input));
  }

  /** A tag without quotes, back-slashes or control characters is written as itself. */
  lemma {:induction false} EscapePlain(t: string)
    requires forall i :: 0 <= i < |t| ==> t[i] >= ' ' && t[i] != '"' && t[i] != '\\'
    ensures Escape(t) == t
  {
    if t != [] {
      EscapePlain(t[1..]);
      assert t == [t[0]] + t[1..];
    }
  }

  /** A piece that neither starts nor ends with white space is kept as it is. */
  lemma CleanPlain(piece: string)
    requires piece != [] && !IsJsWhiteSpace(piece[0]) && !IsJsWhiteSpace(piece[|piece| - 1])
    ensures CleanPiece(piece) == [piece]
  {
    TrimOfTrimmed(piece);
  }

  /** A space typed after a comma belongs to the next piece and is trimmed away with it. */
  lemma LeadingSpaceDropped(input: string)
    ensures CleanTags(" " + input) == CleanTags(input)
  {
    var s := " " + input;
    assert s[0] == ' ' && s[1..] == input;
    var rest := Split(input, ',');
    assert Split(s, ',') == [" " + rest[0]] + rest[1..];
    assert TrimStart(" " + rest[0]) == TrimStart(rest[0]) by {
      assert (" " + rest[0])[1..] == rest[0];
    }
    assert CleanPiece(" " + rest[0]) == CleanPiece(rest[0]);
    assert rest == [rest[0]] + rest[1..];
  }

  /** A tag as a user types it: non-empty, no comma, no white space at either end. */
  predicate PlainTag(t: string) {
    t != [] && ',' !in t && !IsJsWhiteSpace(t[0]) && !IsJsWhiteSpace(t[|t| - 1])
  }

  lemma CommaSpace(a: string, b: string)
    ensures a + ", " + b == a + "," + (" " + b)
  {
  }

  /** Typing plain tags separated by ", " gives back exactly those tags, in that order. */
  lemma {:induction false} CommaListTags(tags: seq<string>)
    requires forall i :: 0 <= i < |tags| ==> PlainTag(tags[i])
    ensures CleanTags(Join(tags, ", ")) == tags
  {
    if tags == [] {
      assert CleanTags("") == CleanPiece("");
    } else if |tags| == 1 {
      SplitNoSeparator(tags[0], ',');
      CleanPlain(tags[0]);
    } else {
      CommaListTags(tags[1..]);
      CommaListStep(tags);
    }
  }

  lemma CommaListStep(tags: seq<string>)
    requires |tags| > 1 && PlainTag(tags[0]) && CleanTags(Join(tags[1..], ", ")) == tags[1..]
    ensures CleanTags(Join(tags, ", ")) == tags
  {
    var rest := Join(tags[1..], ", ");
    assert Join(tags, ", ") == tags[0] + ", " + rest;
    CommaSpace(tags[0], rest);
    CleanTagsAppend(tags[0], " " + rest);
    CleanTagsPlain(tags[0]);
    LeadingSpaceDropped(rest);
    assert CleanTags(Join(tags, ", ")) == [tags[0]] + tags[1..];
  }

  /** A plain tag on its own is read as exactly that tag. */
  lemma CleanTagsPlain(t: string)
    requires PlainTag(t)
    ensures CleanTags(t) == [t]
  {
    SplitNoSeparator(t, ',');
    CleanPlain(t);
    assert CleanPieces([t]) == CleanPiece(t) + CleanPieces([]);
  }

  /** The payload of plain tags typed with ", " between them is their JSON array. */
  lemma CommaListPayload(tags: seq<string>)
    requires tags != [] && forall i :: 0 <= i < |tags| ==> PlainTag(tags[i])
    ensures TagsPayload(Join(tags, ", ")) == Stringify(tags)
  {
    CommaListTags(tags);
    assert Join(tags, ", ") != "" by {
      if |tags| > 1 {
        assert Join(tags, ", ") == tags[0] + ", " + Join(tags[1..], ", ");
      }
    }
  }

  lemma QuotePlain(t: string)
    requires forall i :: 0 <= i < |t| ==> t[i] >= ' ' && t[i] != '"' && t[i] != '\\'
    ensures Quote(t) == "\"" + t + "\""
  {
    EscapePlain(t);
  }

  lemma JoinExample(tags: seq<string>)
    requires tags == ["tag1", "tag2"]
    ensures Join(tags, ", ") == "tag1, tag2"
  {
    assert tags[1..] == ["tag2"];
  }

  /**
   * The example of the form's tests: "tag1, tag2" typed into the tag field is sent
   * as `JSON.stringify(["tag1", "tag2"])`, that is `["tag1","tag2"]` (see `QuotePlain`).
   */
  lemma TagsExample(input: string, tags: seq<string>)
    requires input == "tag1, tag2" && tags == ["tag1", "tag2"]
    ensures CleanTags(input) == tags
    ensures TagsPayload(input) == Stringify(tags)
  {
    JoinExample(tags);
    assert PlainTag(tags[0]) && PlainTag(tags[1]);
    CommaListTags(tags);
    CommaListPayload(tags);
  }

  /**
   * A title the form accepts passes the server's title rule once trimmed, unless it
   * holds U+0085 (for the reason given at `TagsAcceptedByServer`).
   */
  lemma TitleAcceptedByServer(f: FormData)
    requires FormErrors(f) == map[] && '\U{0085}' !in f.title
    ensures TaskValidators.TitleOk(Payload(f).title)
  {
    ValidIff(f);
    TrimmedTitleOk(f.title);
  }

  /** Trimming a title with a visible character keeps one and makes it no longer. */
  lemma TrimmedTitleOk(title: string)
    requires !AllJsWhiteSpace(title) && Utf16Length(title) <= MaxTitleLength && '\U{0085}' !in title
    ensures TaskValidators.TitleOk(Trim(title))
  {
    var t := Trim(title);
    var k := TrimOffset(title);
    assert |t| > 0 && t[0] == title[k];
    assert t[0] != '\U{0085}';
    WhiteSpaceSets(t[0]);
    assert !IsDotNetWhiteSpace(t[0]);
    TrimUtf16Length(title);
  }
}
