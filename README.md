# Project initializer model

A Dafny model of `ProjectInitializer`, the core of an MCP server that walks a user through creating a
new Model Context Protocol server project. The class keeps a conversation record with one of eight steps:

    started → name_set → directory_set → technology_set → description_set → docs_added → foundation_ready → completed

Each tool call does three things in this order:

- It checks that the conversation is at the step it needs.
- It validates its untyped argument.
- Only then does it store the answer and advance the step.

`setupProjectFoundation` records the project, creates the project directory and moves into it. Then,
in this order, it:

- downloads the reference documents into `docs/external`;
- creates the directories of the technology template;
- writes `.gitignore` from inline text;
- renders `README.md` and `CLAUDE.md` from bundled templates;
- writes `.windsurf/rules/general.md`, and `mcp.md` for the MCP title, from inline text, plus the
  technology's rules from a bundled rules file when there is one;
- renders `PRD.md` from its bundled template.

`generateMCPServer` then writes the configuration files of the chosen technology and
`IMPLEMENTATION.md`.

The model is laid out as follows:

- `wrappers.dfy`: `Option` and `Result`.
- `text.dfy` (module `Text`): the string primitives the code relies on, over `seq<char>`.
  - ECMAScript `trim`, with its full whitespace set.
  - ASCII `toLowerCase`/`toUpperCase`.
  - `split` on one character, and the matching `join`.
  - Taking the text after the last separator.
- `arguments.dfy` (module `Arguments`): the untyped tool arguments and the six `validate*Input`
  functions.
  - An argument is `Option<map<string, Json>>`, with `None` for a missing or non-object argument.
  - A validator's error is the reason it would throw.
- `templates.dfy` (module `Templates`): `loadTemplate`.
  - A template is looked up in a map of bundled assets.
  - Each `{{key}}` is replaced by a left-to-right, non-overlapping global replacement, one variable
    after another.
- `generation.dfy` (module `Generation`): the pure helpers.
  - The technology template table, the slug and `.gitignore`.
  - The file name derived from a URL.
  - The essential and user documentation downloads.
  - The PRD variables, the CLAUDE.md, README.md and IMPLEMENTATION.md renderings.
  - The rules files and the configuration files.
- `workflow.dfy` (module `Workflow`): every tool call as a transition function from a `Session` to
  the next `Session` and an `Ok`/`Err` reply. A `Session` holds the conversation record, the current
  project and the working directory. The module also holds:
  - the invariant the conversation keeps;
  - the lemmas about single calls and about whole call sequences.
- `initializer.dfy` (module `Initializer`): the class `ProjectInitializer`.
  - Its three fields are updated in place.
  - Each method is proved to leave exactly the state, and to give exactly the reply, that the
    corresponding transition function prescribes.
  - The methods that build documents are proved equal to the functions that specify them. The
    loops in those methods are over template variables, essential documents and user URLs.

Everything the code reads from outside is a parameter, an `Environment`. It holds:

- the bundled project templates;
- the bundled rules files;
- the set of URLs that answer;
- the pathname of each URL that parses;
- whether the file system fails while the project directory is created, or on a later write.

A reply is `Ok(Written(directories, files))` or `Err(Failure)`. The failure kinds are:

- a step-order violation;
- an invalid input, carrying the validator's reason;
- a missing configuration;
- a missing template;
- a failed write.

The text of the messages is not modelled.

One might expect a field to be present exactly when its step has been reached. The code guarantees
only one direction. `setProjectName` has no step guard: it moves any
conversation back to `name_set` and keeps every later field. The model follows the code:

- `Workflow.Inv` states the "reached ⇒ present and valid" direction, and every call preserves it.
- `Workflow.RenameKeepsLaterFields` exhibits the converse failing.

## Model

| member | source | states |
|---|---|---|
| Arguments.NonBlank | src/project-initializer.ts:771-780 | a missing argument gives ArgumentsMissing; Ok exactly when the property is a string that is not all whitespace, and then the value is its trim: non-empty and trimmed |
| Arguments.ValidateName | src/project-initializer.ts:770-781 | accepts exactly a `name` string that is not blank, returning it trimmed, non-empty and with no surrounding whitespace |
| Arguments.ValidateDescription | src/project-initializer.ts:796-807 | accepts exactly a `description` string that is not blank, returning it trimmed and non-empty |
| Arguments.ValidateDirectory | src/project-initializer.ts:809-827 | missing argument gives ArgumentsMissing; Ok exactly for a non-blank string whose trim starts with "/", returning that trim; NotAbsolutePath exactly for a non-blank string whose trim is relative |
| Arguments.ValidateTechnology | src/project-initializer.ts:783-794 | accepts exactly the strings "typescript" and "python", case-sensitively and untrimmed, returning the string itself |
| Arguments.ValidateConfirmation | src/project-initializer.ts:829-845 | a non-string confirmation gives NotAString; Ok exactly when the upper-cased trim is YES, PROCEED or CONTINUE, and the value is that upper-cased trim |
| Arguments.ValidateDocumentation | src/project-initializer.ts:847-863 | URLs are present exactly when `documentationUrls` is an array, and are then its string elements in order; context is present exactly when `customContext` is a non-blank string, and is then its trim |
| Arguments.Strings | src/project-initializer.ts:851-853 | the array filter keeps at most as many elements as there are, and every kept element was a string element of the array |
| Arguments.StringsAppend | src/project-initializer.ts:851-853 | filtering the string elements distributes over concatenation, so the kept URLs keep their order |
| Arguments.NameRevalidates | src/project-initializer.ts:776-780 | the name a validation returns validates again to itself (the trim is a fixed point) |
| Arguments.ConfirmationByNormalForm | src/project-initializer.ts:838-841 | two confirmation strings with the same upper-cased trim get the same verdict |
| Arguments.ConfirmationRevalidates | src/project-initializer.ts:838-844 | an accepted, normalised confirmation is accepted again as itself |
| Arguments.ConfirmationIgnoresCase | src/project-initializer.ts:838 | lower-casing the confirmation does not change the verdict |
| Arguments.ConfirmationIgnoresBlanks | src/project-initializer.ts:838 | surrounding the trimmed confirmation with any whitespace does not change the verdict |
| Arguments.DirectoryIgnoresBlanks | src/project-initializer.ts:815-826 | surrounding an accepted directory with whitespace gives the same accepted directory |
| Text.TrimIsSlice | src/project-initializer.ts:779 | `trim` returns a contiguous slice of its input, with only whitespace cut from either side |
| Text.TrimEmptyIff | src/project-initializer.ts:776 | the trim is empty exactly when the string is all whitespace, the "!x.trim()" test of the validators |
| Text.TrimIdempotent | src/project-initializer.ts:779 | trimming twice is trimming once |
| Text.TrimPadded | src/project-initializer.ts:838 | a trimmed string padded with whitespace trims back to itself |
| Text.TrimLower | src/project-initializer.ts:838 | trimming commutes with lower-casing |
| Text.UpperOfLower | src/project-initializer.ts:838 | upper-casing after lower-casing is upper-casing |
| Text.SplitJoin | src/project-initializer.ts:427 | joining the pieces of a split gives the string back, and no piece contains the separator |
| Text.LastPieceIsAfterLast | src/project-initializer.ts:427-428 | the last piece of a split is the text after the last separator |
| Templates.ReplaceAllNoMatch | src/project-initializer.ts:43-44 | a text where the pattern never occurs comes back unchanged |
| Templates.SubstituteUntouched | src/project-initializer.ts:42-45 | a template with no placeholder of any variable, in particular any template with no variables, comes back unchanged |
| Templates.SubstituteOne | src/project-initializer.ts:42-45 | a variable's placeholder is replaced by its value, and the placeholder of a name with no variable stays verbatim |
| Templates.SubstituteEvery | src/project-initializer.ts:42-45 | every occurrence of a variable's placeholder is replaced, not only the first: brace-free pieces joined by `{{key}}` come back joined by the value |
| Templates.SubstituteKeepsUnknown | src/project-initializer.ts:42-45 | a placeholder whose name has no variable stays verbatim whatever list of other plain-named variables is substituted |
| Templates.SubstituteTwo | src/project-initializer.ts:42-45 | with two variables, each with its own placeholder in brace-free text, each placeholder is replaced by its own value: the first replacement leaves the other placeholder alone |
| Templates.LoadTemplate | src/project-initializer.ts:32-52 | TemplateNotFound exactly when the asset is missing; otherwise the asset with every variable substituted in entry order (the loop is proved against `Substitute`) |
| Templates.Render | src/project-initializer.ts:32-52 | a load fails exactly when the asset is missing |
| Generation.TechnologyTemplate | src/project-initializer.ts:280-332 | the lower-cased key picks the TypeScript, Python or MCP title; any other technology gets the generic template carrying its own name; every template lists the llms-full reference and src, docs and .windsurf |
| Generation.TemplateIgnoresCase | src/project-initializer.ts:319 | for a known key, the lookup is the same as for the lower-cased technology |
| Generation.Slug | src/project-initializer.ts:509 | same length; every character is a lower-case ASCII letter, a digit or "-", and a character is kept (lower-cased) exactly when it is alphanumeric after lower-casing |
| Generation.SlugStable | src/project-initializer.ts:509 | the slug is idempotent and ignores case |
| Generation.Gitignore | src/project-initializer.ts:435-494 | always starts with the common block, and is exactly that block when the lower-cased technology is neither typescript nor python |
| Generation.GitignoreIgnoresCase | src/project-initializer.ts:493 | the .gitignore depends only on the lower-cased technology |
| Generation.BaseName | src/project-initializer.ts:427-428 | the chosen segment is non-empty and contains no "/" |
| Generation.NonEmptyPieces | src/project-initializer.ts:427 | `filter(Boolean)`: every kept segment is non-empty and is one of the segments |
| Generation.FilenameFromUrl | src/project-initializer.ts:424-433 | an unparsable URL gives documentation.txt; otherwise the last non-empty path segment, or "documentation", kept when it contains "." and suffixed ".txt" otherwise; never empty, no "/" |
| Generation.BaseNameIsLastSegment | src/project-initializer.ts:427-428 | the chosen segment equals the text after the last "/" once trailing slashes are removed, or "documentation" when nothing is left |
| Generation.EssentialDocs | src/project-initializer.ts:355-376 | the llms-full reference first, followed by the SDK readme exactly when the technology is "typescript" or "python", stored as `<technology>-sdk-README.md` |
| Generation.FetchedEssentialsExact | src/project-initializer.ts:379-389 | a file name is written exactly when some essential document with that name has a reachable URL |
| Generation.FetchedEssentials | src/project-initializer.ts:379-389 | at most one file per essential document |
| Generation.DownloadEssentials | src/project-initializer.ts:379-389 | the download loop writes exactly the files of the reachable essential documents, in order |
| Generation.GatherExternal | src/project-initializer.ts:342-351 | the loop over user URLs writes exactly the derived file names of the reachable URLs, in order, skipping failures |
| Generation.FetchedUserDocs | src/project-initializer.ts:342-351 | at most one file per user URL, each named by a non-empty name without "/" |
| Generation.FetchedUserDocsExact | src/project-initializer.ts:342-351 | a file name is written exactly when some reachable URL derives that name from its own pathname |
| Generation.FetchedUserDocsCount | src/project-initializer.ts:342-351 | the number of user files written equals the number of reachable URL positions |
| Generation.AdditionalContext | src/project-initializer.ts:883-886 | empty exactly when the custom context is absent or empty; otherwise the label, the context and a blank line |
| Generation.BulletsReadBack | src/project-initializer.ts:891-893 | the bullet list reads back, line by line, as one "- url" line per URL in order |
| Generation.ExternalDocsSection | src/project-initializer.ts:888-895 | empty exactly when context is excluded or there are no URLs; otherwise the header, one bullet per URL and a closing blank line |
| Generation.BuildExternalDocsSection | src/project-initializer.ts:888-895 | the loop that appends the bullets builds exactly that section |
| Generation.PrdVariables | src/project-initializer.ts:897-903 | five variables, the last two being the additional context and the external documentation section |
| Generation.ClaudeDocument | src/project-initializer.ts:507-522 | fails exactly when CLAUDE.md is missing, or when the title is the MCP title and mcp-specific-content.md is missing, and then with that template's name |
| Generation.InstructionsAsset | src/project-initializer.ts:913-921 | only "typescript" and "python" have an instructions document, `<technology>-instructions.md` |
| Generation.TechnologyInstructions | src/project-initializer.ts:913-926 | missing or inapplicable instructions are tolerated and give the empty string |
| Generation.ImplementationDocument | src/project-initializer.ts:906-937 | IMPLEMENTATION.md fails exactly when its own template is missing |
| Generation.TechnologyRules | src/project-initializer.ts:952-977 | the bundled `<lower-cased title>.md` rules when present; otherwise the stub exactly for the MCP title, and nothing for any other title |
| Generation.RulesFiles | src/project-initializer.ts:588-599 | general.md first, mcp.md second for the MCP title, and `<slug>.md` last exactly when non-empty technology rules exist |
| Generation.ConfigFiles | src/project-initializer.ts:710-718 | two files: package.json and tsconfig.json exactly for "typescript", requirements.txt and pyproject.toml otherwise |
| Generation.ProjectRoot | src/project-initializer.ts:627-628 | the project directory is the base without its trailing slashes, then "/" and the name; absolute when the base is |
| Generation.ProjectRootTrailingSlash | src/project-initializer.ts:627-628 | a base written with a trailing slash gives the same project directory |
| Initializer.GenerateReadme | src/project-initializer.ts:496-504 | fails exactly when README.md is missing; otherwise the template with the project name and description substituted, each with its fallback |
| Initializer.GenerateClaudeMd | src/project-initializer.ts:507-522 | loads mcp-specific-content.md only for the MCP title, then CLAUDE.md; equal to `ClaudeDocument` |
| Initializer.GeneratePrdContent | src/project-initializer.ts:876-904 | fails exactly when PRD.md is missing; otherwise the template with the five PRD variables substituted |
| Initializer.GenerateImplementationGuide | src/project-initializer.ts:906-937 | equal to `ImplementationDocument`: instructions failures swallowed, the main template's absence reported |
| Initializer.PlanFoundation | src/project-initializer.ts:640-662 | the downloads, renderings and rule files of the foundation, stopping at the first missing template; equal to `FoundationFiles` |
| Workflow.Rank | src/project-initializer.ts:11 | the steps numbered 0 to 7 in conversation order, 0 only for started and 7 only for completed |
| Workflow.Start | src/project-initializer.ts:54-65 | resets the conversation to `started` with every optional field absent, keeping the current project and working directory |
| Workflow.SetName | src/project-initializer.ts:67-84 | no step guard: Ok exactly when the name validates, storing the trimmed name at `name_set` and changing nothing else; otherwise the validator's error with the session unchanged |
| Workflow.SetDirectory | src/project-initializer.ts:86-107 | StepOrderViolation exactly when not at `name_set`; Ok exactly at `name_set` with a valid directory, storing it at `directory_set`; any error leaves the session unchanged |
| Workflow.SetTechnology | src/project-initializer.ts:109-130 | StepOrderViolation exactly off `directory_set`; Ok exactly at `directory_set` with a valid technology, stored at `technology_set`; errors change nothing |
| Workflow.SetDescription | src/project-initializer.ts:132-153 | StepOrderViolation exactly off `technology_set`; Ok exactly at `technology_set` with a valid description, stored trimmed at `description_set`; errors change nothing |
| Workflow.AddDocumentation | src/project-initializer.ts:155-195 | Ok exactly at `description_set`, never failing on the argument; both documentation fields overwritten with what validates; the step advances to `docs_added` |
| Workflow.Confirm | src/project-initializer.ts:197-216 | never reads or moves the step; Ok exactly when the confirmation validates, clearing the waiting flag and recording the normalised word; errors change nothing |
| Workflow.ConfigOf | src/project-initializer.ts:618-624 | the configuration built from a complete conversation has non-empty name, description and technology and carries the documentation fields over |
| Workflow.FoundationFileList | src/project-initializer.ts:640-662 | always contains .gitignore, README.md, CLAUDE.md, PRD.md and the general rules, and the llms-full reference when it is reachable |
| Workflow.FoundationFiles | src/project-initializer.ts:640-662 | fails exactly when README.md or PRD.md is missing or CLAUDE.md cannot be rendered |
| Workflow.FoundationDirectories | src/project-initializer.ts:392-397 | docs/external, .windsurf/rules and every directory of the technology template are created |
| Workflow.SetupFoundation | src/project-initializer.ts:602-691 | StepOrderViolation exactly off `description_set`/`docs_added`, changing nothing; MissingConfiguration exactly for an incomplete conversation, left at `docs_added`; every error leaves the conversation as it was or moved to `docs_added`; a later failure keeps the recorded project and, unless the project directory could not be created, the working directory moved into it |
| Workflow.SetupFoundationOutcome | src/project-initializer.ts:602-691 | Ok exactly at the right step, complete, with a working file system and the templates present; then the project is recorded, the working directory is the project directory, the step is `foundation_ready`, and the planned files are reported |
| Workflow.WriteFoundation | src/project-initializer.ts:640-666 | a missing template reports TemplateMissing and changes nothing more; otherwise the directories and files are reported and the step becomes `foundation_ready` with `foundationSetup` true |
| Workflow.GenerateServer | src/project-initializer.ts:693-768 | StepOrderViolation exactly off `foundation_ready`, MissingConfiguration exactly there without a project, errors change nothing; Ok exactly with a project, a working file system and IMPLEMENTATION.md present, completing the conversation and writing the configuration files and IMPLEMENTATION.md |
| Workflow.StatusFlags | src/project-initializer.ts:221-230 | eight marks: the first exactly when past `started`, the sixth exactly from `docs_added` on, the last exactly at `completed` |
| Workflow.StartKeepsInv | src/project-initializer.ts:54-56 | a restart satisfies the invariant |
| Workflow.NameKeepsInv | src/project-initializer.ts:67-71 | setting the name from any step preserves the invariant |
| Workflow.DirectoryKeepsInv | src/project-initializer.ts:88-94 | setting the directory preserves the invariant |
| Workflow.TechnologyKeepsInv | src/project-initializer.ts:111-117 | setting the technology preserves the invariant |
| Workflow.DescriptionKeepsInv | src/project-initializer.ts:134-140 | setting the description preserves the invariant |
| Workflow.DocumentationKeepsInv | src/project-initializer.ts:157-164 | adding documentation preserves the invariant |
| Workflow.ConfirmKeepsInv | src/project-initializer.ts:199-203 | a confirmation preserves the invariant |
| Workflow.FoundationKeepsInv | src/project-initializer.ts:602-666 | the foundation preserves the invariant on every outcome |
| Workflow.ServerKeepsInv | src/project-initializer.ts:693-724 | generating the server preserves the invariant |
| Workflow.ApplyPreservesInv | src/project-initializer.ts:54-768 | every tool call preserves the invariant |
| Workflow.RunPreservesInv | src/project-initializer.ts:10-26 | any sequence of tool calls preserves the invariant |
| Workflow.FreshSessionInv | src/project-initializer.ts:24-30 | a new initializer satisfies the invariant |
| Workflow.FoundationFindsFields | src/project-initializer.ts:613-616 | in a session that satisfies the invariant, the foundation never reports a missing configuration |
| Workflow.ServerFindsProject | src/project-initializer.ts:699-701 | in a session that satisfies the invariant, the server step never reports a missing project |
| Workflow.StatusReflectsProgress | src/project-initializer.ts:221-230 | in a session that satisfies the invariant, the status shows each mark once its step is reached, and the first, sixth and eighth marks exactly then |
| Workflow.RenameKeepsLaterFields | src/project-initializer.ts:67-71 | renaming at `docs_added` goes back to `name_set` but keeps technology and description: fields can be present before their step |
| Workflow.StepsMoveForward | src/project-initializer.ts:54-768 | a successful call moves exactly one step forward, except restart (to the start), rename (to `name_set`), confirmation (stays) and foundation (to `foundation_ready` from `description_set` or `docs_added`) |
| Workflow.AnswerMovesForward | src/project-initializer.ts:67-164 | an accepted answer sets its own step: the name `name_set`, the others the step after the one they are given at |
| Workflow.FoundationMovesForward | src/project-initializer.ts:602-666 | a successful foundation starts at `description_set` or `docs_added` and ends at `foundation_ready` |
| Workflow.EndToEnd | src/project-initializer.ts:54-768 | restart, valid answers for every step, foundation and generation with templates and a working file system end completed, foundation done, inside `<directory>/<name>`, with README.md and PRD.md written |
| Initializer.ProjectInitializer.constructor | src/project-initializer.ts:24-30 | no project, conversation at `started`, working directory the given current directory; the invariant holds |
| Initializer.ProjectInitializer.StartMCPProject | src/project-initializer.ts:54-65 | the fields become `Start`'s next session and the reply is its reply |
| Initializer.ProjectInitializer.SetProjectName | src/project-initializer.ts:67-84 | the fields and the reply are those of `SetName` |
| Initializer.ProjectInitializer.SetProjectDirectory | src/project-initializer.ts:86-107 | the fields and the reply are those of `SetDirectory` |
| Initializer.ProjectInitializer.SetProjectTechnology | src/project-initializer.ts:109-130 | the fields and the reply are those of `SetTechnology` |
| Initializer.ProjectInitializer.SetProjectDescription | src/project-initializer.ts:132-153 | the fields and the reply are those of `SetDescription` |
| Initializer.ProjectInitializer.AddProjectDocumentation | src/project-initializer.ts:155-195 | the fields and the reply are those of `AddDocumentation` |
| Initializer.ProjectInitializer.ConfirmAndProceed | src/project-initializer.ts:197-216 | the fields and the reply are those of `Confirm` |
| Initializer.ProjectInitializer.GetConversationStatus | src/project-initializer.ts:218-277 | the eight status marks of the current conversation, the last exactly when completed; nothing changes |
| Initializer.ProjectInitializer.SetupProjectFoundation | src/project-initializer.ts:602-691 | the fields and the reply are those of `SetupFoundation` |
| Initializer.ProjectInitializer.GenerateMCPServer | src/project-initializer.ts:693-768 | the fields and the reply are those of `GenerateServer` |

## Left out

- File-system and network I/O are not performed. Templates, rules, reachable URLs, URL pathnames and file-system faults come in as an `Environment` value, and a reply reports the paths written.
- Partial writes before a failure are not modelled. An `Err` reply reports nothing written, although the code may already have written files. Examples: documentation downloaded before a template turns out to be missing; the configuration files written before IMPLEMENTATION.md fails to load.
- A write failure during the foundation is modelled by two fault points. The project directory fails, or a later write fails. The exact file at which a write fails is not modelled.
- The downloads write their files into `docs/external` a second time when user URLs are given: `gatherExternalDocumentation` downloads the essential documents again. Overwriting a file with the same content changes nothing the model tracks, so the list of written files names each essential document once.
- URL parsing (`new URL`) is not modelled. A URL that parses is represented by its pathname in `Environment.pathnames`. Any other URL gives `documentation.txt`.
- `path.resolve` and `path.join` are modelled only as far as trailing slashes: the project directory is the trimmed absolute base without its trailing slashes, `/` and the name. `.` and `..` segments are not collapsed, and repeated inner slashes are not merged.
- `path.isAbsolute` is modelled as "starts with /", the POSIX rule.
- Case mapping is ASCII only. `toLowerCase`/`toUpperCase` of non-ASCII letters, such as "ß" becoming "SS", are not modelled.
- Template keys are treated as literal text. A variable value containing `$&`, `$1` or similar replacement patterns is inserted verbatim, and key characters that are regular-expression metacharacters are not interpreted.
- Object-keyed lookups (the template table, the .gitignore extras) do not model inherited prototype keys such as `constructor`.
- The text of replies (the emoji-decorated messages, the status report's lines) and console logging are not modelled. The status is modelled as its eight check marks.
- The static file bodies are opaque constants or left out: the common and per-technology `.gitignore` text, the general and MCP rules, `package.json`, `tsconfig.json`, `pyproject.toml`, `requirements.txt`. The model tracks which of these files are written, not their bytes.
- The "No project initialized" and "No project configuration found" throws inside `generatePRDContent`, `generateImplementationGuide`, `generatePackageJson` and `generatePyProjectToml` are not modelled. They are called only once a current project exists.
- Object-entry order of the template variables is taken as the written order of the object literal.
- `src/index.ts`, the MCP transport and the tool registration, is not part of this model.
- Generation.TechnologyInstructions: states only that a missing or inapplicable instructions document gives the empty string. The rendered text, when present, is defined by the function and not restated.
