/** The untyped tool arguments and the `validate*Input` functions that turn them into typed values
    (src/project-initializer.ts:770-863). */
module Arguments {
  import opened Wrappers
  import opened Text

  /** A JSON-like value as it arrives from the caller. Numbers carry an integer: only their type matters. */
  datatype Json =
    | JNull
    | JBool(b: bool)
    | JNumber(n: int)
    | JString(s: string)
    | JArray(items: seq<Json>)
    | JObject(fields: map<string, Json>)

  /** A tool argument: `None` when it is missing or not an object (`!args || typeof args !== "object"`),
      otherwise its properties. An array argument has none of the properties read here, so it is an empty map. */
  type Args = Option<map<string, Json>>

  /** Why a validator throws. */
  datatype Invalid =
    | ArgumentsMissing         // the argument is missing or not an object
    | NotNonEmptyString        // the property is not a string, or is blank after trimming
    | NotAbsolutePath          // the trimmed directory does not start with "/"
    | UnsupportedTechnology    // neither "typescript" nor "python"
    | NotAString               // the confirmation is not a string
    | UnrecognisedConfirmation // the normalised confirmation is not YES, PROCEED or CONTINUE

  /** `cfg[key]`, or `None` when the argument or the property is absent. */
  function Field(args: Args, key: string): Option<Json> {
    if args.Some? && key in args.value then Some(args.value[key]) else None
  }

  /** The string held by `cfg[key]`, when it is one. */
  function StringField(args: Args, key: string): Option<string> {
    match Field(args, key)
    case Some(JString(v)) => Some(v)
    case _ => None
  }

  /** The shared check of name and description: a string that is non-blank, stored trimmed. */
  function NonBlank(args: Args, key: string): (r: Result<string, Invalid>)
    ensures args.None? ==> r == Err(ArgumentsMissing)
    ensures r.Ok? <==> args.Some? && StringField(args, key).Some? && !AllSpace(StringField(args, key).value)
    ensures r.Ok? ==> r.value == Trim(StringField(args, key).value) && r.value != [] && IsTrimmed(r.value)
    ensures r.Err? && args.Some? ==> r.error == NotNonEmptyString
  {
    if args.None? then Err(ArgumentsMissing)
    else match StringField(args, key)
      case Some(v) =>
        TrimEmptyIff(v);
        if Trim(v) != [] then Ok(Trim(v)) else Err(NotNonEmptyString)
      case None => Err(NotNonEmptyString)
  }

  /** validateNameInput. */
  function ValidateName(args: Args): (r: Result<string, Invalid>)
    ensures r.Ok? <==> args.Some? && StringField(args, "name").Some? && !AllSpace(StringField(args, "name").value)
    ensures r.Ok? ==> r.value == Trim(StringField(args, "name").value) && r.value != [] && IsTrimmed(r.value)
  {
    NonBlank(args, "name")
  }

  /** validateDescriptionInput. */
  function ValidateDescription(args: Args): (r: Result<string, Invalid>)
    ensures r.Ok? <==> args.Some? && StringField(args, "description").Some? && !AllSpace(StringField(args, "description").value)
    ensures r.Ok? ==> r.value == Trim(StringField(args, "description").value) && r.value != [] && IsTrimmed(r.value)
  {
    NonBlank(args, "description")
  }

  /** Node's POSIX `path.isAbsolute`: the path starts with "/". */
  predicate IsAbsolute(p: string) {
    p != [] && p[0] == '/'
  }

  /** validateDirectoryInput: a non-blank string whose trimmed form is an absolute path. */
  function ValidateDirectory(args: Args): (r: Result<string, Invalid>)
    ensures args.None? ==> r == Err(ArgumentsMissing)
    ensures r.Ok? <==> args.Some? && StringField(args, "directory").Some?
                       && IsAbsolute(Trim(StringField(args, "directory").value))
    ensures r.Ok? ==> r.value == Trim(StringField(args, "directory").value) && IsTrimmed(r.value) && r.value[0] == '/'
    ensures r == Err(NotAbsolutePath) <==>
              && args.Some? && StringField(args, "directory").Some?
              && !AllSpace(StringField(args, "directory").value)
              && !IsAbsolute(Trim(StringField(args, "directory").value))
  {
    match NonBlank(args, "directory")
    case Err(e) => Err(e)
    case Ok(d) => if IsAbsolute(d) then Ok(d) else Err(NotAbsolutePath)
  }

  /** validateTechnologyInput: exactly "typescript" or "python", with no trimming or case folding. */
  function ValidateTechnology(args: Args): (r: Result<string, Invalid>)
    ensures r.Ok? <==> args.Some? && StringField(args, "technology") in {Some("typescript"), Some("python")}
    ensures r.Ok? ==> Some(r.value) == StringField(args, "technology")
  {
    if args.None? then Err(ArgumentsMissing)
    else match StringField(args, "technology")
      case Some(v) => if v == "typescript" || v == "python" then Ok(v) else Err(UnsupportedTechnology)
      case None => Err(UnsupportedTechnology)
  }

  /** The confirmations the workflow accepts, in normalised form. */
  const Confirmations: set<string> := {"YES", "PROCEED", "CONTINUE"}

  /** The verdict on a normalised confirmation: accepted as itself when it is a known one. */
  function Verdict(c: string): Result<string, Invalid>
  {
    if c in Confirmations then Ok(c) else Err(UnrecognisedConfirmation)
  }

  /** validateConfirmationInput: a string whose trimmed, upper-cased form is a known confirmation;
      that normalised form is the result. */
  function ValidateConfirmation(args: Args): (r: Result<string, Invalid>)
    ensures args.Some? && StringField(args, "confirmation").None? ==> r == Err(NotAString)
    ensures r.Ok? <==> args.Some? && StringField(args, "confirmation").Some?
                       && ToUpper(Trim(StringField(args, "confirmation").value)) in Confirmations
    ensures r.Ok? ==> r.value in Confirmations && r.value == ToUpper(Trim(StringField(args, "confirmation").value))
  {
    if args.None? then Err(ArgumentsMissing)
    else match StringField(args, "confirmation")
      case None => Err(NotAString)
      case Some(v) => Verdict(ToUpper(Trim(v)))
  }

  /** What validateDocumentationInput returns: both parts optional. */
  datatype DocumentationInput = DocumentationInput(documentationUrls: Option<seq<string>>, customContext: Option<string>)

  /** `items.filter(x => typeof x === "string")`. */
  function Strings(items: seq<Json>): (r: seq<string>)
    ensures |r| <= |items|
    ensures forall x :: x in r ==> JString(x) in items
    decreases |items|
  {
    if items == [] then []
    else Strings(items[..|items| - 1]) + (if items[|items| - 1].JString? then [items[|items| - 1].s] else [])
  }

  /** Filtering distributes over concatenation: the strings keep their order and nothing else is kept. */
  lemma {:induction false} StringsAppend(a: seq<Json>, b: seq<Json>)
    ensures Strings(a + b) == Strings(a) + Strings(b)
    decreases |b|
  {
    if b != [] {
      assert (a + b)[..|a + b| - 1] == a + b[..|b| - 1];
      assert (a + b)[|a + b| - 1] == b[|b| - 1];
      StringsAppend(a, b[..|b| - 1]);
      var last := if b[|b| - 1].JString? then [b[|b| - 1].s] else [];
      assert Strings(b) == Strings(b[..|b| - 1]) + last;
      assert Strings(a + b) == Strings(a + b[..|b| - 1]) + last;
      assert Strings(a + b) == Strings(a) + (Strings(b[..|b| - 1]) + last);
    } else {
      assert a + b == a;
    }
  }

  /** validateDocumentationInput never fails: it keeps the string elements of `documentationUrls`
      when that property is an array, and the trimmed `customContext` when it is a non-blank string. */
  function ValidateDocumentation(args: Args): (r: DocumentationInput)
    ensures r.documentationUrls.Some? <==> Field(args, "documentationUrls").Some? && Field(args, "documentationUrls").value.JArray?
    ensures r.documentationUrls.Some? ==> r.documentationUrls.value == Strings(Field(args, "documentationUrls").value.items)
    ensures r.customContext.Some? <==> StringField(args, "customContext").Some? && !AllSpace(StringField(args, "customContext").value)
    ensures r.customContext.Some? ==> r.customContext.value == Trim(StringField(args, "customContext").value)
                                      && r.customContext.value != [] && IsTrimmed(r.customContext.value)
  {
    var urls := match Field(args, "documentationUrls")
      case Some(JArray(items)) => Some(Strings(items))
      case _ => None;
    var context := match StringField(args, "customContext")
      case Some(v) => (TrimEmptyIff(v); if Trim(v) != [] then Some(Trim(v)) else None)
      case None => None;
    DocumentationInput(urls, context)
  }

  /** A validated name is accepted again unchanged: the stored value is a fixed point of validation. */
  lemma NameRevalidates(args: Args, again: Args)
    requires ValidateName(args).Ok?
    requires StringField(again, "name") == Some(ValidateName(args).value)
    ensures ValidateName(again) == ValidateName(args)
  {
    var n := ValidateName(args).value;
    TrimFixed(n);
    TrimEmptyIff(n);
  }

  /** The verdict on a confirmation depends on nothing but its trimmed, upper-cased form. */
  lemma ConfirmationByNormalForm(args: Args, again: Args)
    requires StringField(args, "confirmation").Some? && StringField(again, "confirmation").Some?
    requires ToUpper(Trim(StringField(again, "confirmation").value)) == ToUpper(Trim(StringField(args, "confirmation").value))
    ensures ValidateConfirmation(again) == ValidateConfirmation(args)
  {
    ConfirmationOfString(args);
    ConfirmationOfString(again);
  }

  /** A string confirmation gets the verdict on its normal form. */
  lemma ConfirmationOfString(args: Args)
    requires StringField(args, "confirmation").Some?
    ensures ValidateConfirmation(args) == Verdict(ToUpper(Trim(StringField(args, "confirmation").value)))
  {
  }

  /** A normalised confirmation is accepted again as itself. */
  lemma ConfirmationRevalidates(args: Args, again: Args)
    requires ValidateConfirmation(args).Ok?
    requires StringField(again, "confirmation") == Some(ValidateConfirmation(args).value)
    ensures ValidateConfirmation(again) == ValidateConfirmation(args)
  {
    var t := Trim(StringField(args, "confirmation").value);
    var c := ToUpper(t);
    assert StringField(again, "confirmation").value == c;
    ToUpperKeepsTrimmed(t);
    TrimFixed(c);
    ConfirmationByNormalForm(args, again);
  }

  /** Matching ignores case: the lower-cased spelling of any answer gets the same verdict and,
      when accepted, the same normalised word. */
  lemma ConfirmationIgnoresCase(args: Args, again: Args)
    requires StringField(args, "confirmation").Some?
    requires StringField(again, "confirmation") == Some(ToLower(StringField(args, "confirmation").value))
    ensures ValidateConfirmation(again) == ValidateConfirmation(args)
  {
    var v := StringField(args, "confirmation").value;
    TrimLower(v);
    UpperOfLower(Trim(v));
    ConfirmationByNormalForm(args, again);
  }

  /** Matching ignores surrounding whitespace of any kind: padding the trimmed answer changes nothing. */
  lemma ConfirmationIgnoresBlanks(args: Args, again: Args, pre: string, post: string)
    requires AllSpace(pre) && AllSpace(post)
    requires StringField(args, "confirmation").Some?
    requires StringField(again, "confirmation") == Some(pre + Trim(StringField(args, "confirmation").value) + post)
    ensures ValidateConfirmation(again) == ValidateConfirmation(args)
  {
    var t := Trim(StringField(args, "confirmation").value);
    TrimPadded(pre, t, post);
    ConfirmationByNormalForm(args, again);
  }

  /** The directory check also ignores surrounding whitespace: padding an accepted directory gives
      the same directory back. */
  lemma DirectoryIgnoresBlanks(args: Args, again: Args, pre: string, post: string)
    requires AllSpace(pre) && AllSpace(post)
    requires ValidateDirectory(args).Ok?
    requires StringField(again, "directory") == Some(pre + ValidateDirectory(args).value + post)
    ensures ValidateDirectory(again) == ValidateDirectory(args)
  {
    var d := ValidateDirectory(args).value;
    TrimPadded(pre, d, post);
    assert Trim(StringField(again, "directory").value) == d;
  }
}
