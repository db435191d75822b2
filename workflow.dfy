/** The guided conversation of `ProjectInitializer` (src/project-initializer.ts:10-277, 602-768) as
    transition functions over the whole session: the conversation record, the current project and the
    working directory. Each step operation checks the step, then validates its argument, and only
    then changes the state. Failures are ordinary replies, never exceptions. */
module Workflow {
  import opened Wrappers
  import opened Text
  import opened Arguments
  import opened Templates
  import opened Generation

  /** The eight steps of the conversation, in order. */
  datatype Step =
    | Started
    | NameSet
    | DirectorySet
    | TechnologySet
    | DescriptionSet
    | DocsAdded
    | FoundationReady
    | Completed

  /** The position of a step in the order. */
  function Rank(step: Step): (r: nat)
    ensures r <= 7
    ensures r == 0 <==> step == Started
    ensures r == 7 <==> step == Completed
  {
    match step
    case Started => 0
    case NameSet => 1
    case DirectorySet => 2
    case TechnologySet => 3
    case DescriptionSet => 4
    case DocsAdded => 5
    case FoundationReady => 6
    case Completed => 7
  }

  /** The conversation record (src/project-initializer.ts:10-21); an absent property is `None`. */
  datatype ConversationState = ConversationState(
    step: Step,
    projectName: Option<string>,
    projectDirectory: Option<string>,
    technology: Option<string>,
    description: Option<string>,
    documentationUrls: Option<seq<string>>,
    customContext: Option<string>,
    foundationSetup: Option<bool>,
    waitingForConfirmation: Option<bool>,
    lastAction: Option<string>)

  /** `{ step: 'started' }`. */
  const Initial: ConversationState :=
    ConversationState(Started, None, None, None, None, None, None, None, None, None)

  /** Everything the initializer keeps between calls. */
  datatype Session = Session(
    conversation: ConversationState,
    currentProject: Option<ProjectConfig>,
    workingDirectory: string)

  /** How the file system behaves during one operation. */
  datatype FsFault =
    | NoFault     // every directory and file can be created
    | RootFault   // creating the project directory fails
    | WriteFault  // the project directory is created, a later write fails

  /** What the operations read from the outside world: the bundled templates, the bundled rules,
      which URLs answer, the pathname of each URL that parses, and the file system's behaviour. */
  datatype Environment = Environment(
    projectAssets: map<string, string>,
    ruleAssets: map<string, string>,
    reachable: set<string>,
    pathnames: map<string, string>,
    fault: FsFault)

  /** Why an operation answered with an error. */
  datatype Failure =
    | StepOrderViolation
    | InvalidInput(reason: Invalid)
    | MissingConfiguration
    | TemplateMissing(error: TemplateError)
    | WriteFailed

  /** What a successful operation created under the project directory. */
  datatype Written = Written(directories: seq<string>, files: seq<string>)

  const Nothing: Written := Written([], [])

  /** The answer of an operation and the state it leaves behind. */
  datatype Transition = Transition(next: Session, reply: Result<Written, Failure>)

  /** A step's state and reply after a refusal: nothing changes. */
  function Refuse(s: Session, f: Failure): Transition
  {
    Transition(s, Err(f))
  }

  // ---------------------------------------------------------------------------------------------
  // The step operations

  /** startMCPProject: the conversation starts over; the current project and working directory stay. */
  function Start(s: Session): (t: Transition)
    ensures t.reply == Ok(Nothing)
    ensures t.next.conversation.step == Started
    ensures t.next.conversation.projectName.None? && t.next.conversation.projectDirectory.None?
            && t.next.conversation.technology.None? && t.next.conversation.description.None?
            && t.next.conversation.documentationUrls.None? && t.next.conversation.customContext.None?
            && t.next.conversation.foundationSetup.None? && t.next.conversation.waitingForConfirmation.None?
            && t.next.conversation.lastAction.None?
    ensures t.next.currentProject == s.currentProject && t.next.workingDirectory == s.workingDirectory
  {
    Transition(s.(conversation := Initial), Ok(Nothing))
  }

  /** setProjectName: no step guard; from any step, a valid name is stored trimmed and the step
      becomes NameSet, with every later field kept as it was. */
  function SetName(s: Session, args: Args): (t: Transition)
    ensures t.reply.Ok? <==> ValidateName(args).Ok?
    ensures t.reply.Err? ==> t.next == s && t.reply == Err(InvalidInput(ValidateName(args).error))
    ensures t.reply.Ok? ==> t.next == s.(conversation := s.conversation.(step := NameSet, projectName := Some(ValidateName(args).value)))
  {
    match ValidateName(args)
    case Err(e) => Refuse(s, InvalidInput(e))
    case Ok(name) => Transition(s.(conversation := s.conversation.(projectName := Some(name), step := NameSet)), Ok(Nothing))
  }

  /** setProjectDirectory: only after the name; stores the trimmed absolute directory. */
  function SetDirectory(s: Session, args: Args): (t: Transition)
    ensures t.reply == Err(StepOrderViolation) <==> s.conversation.step != NameSet
    ensures t.reply.Ok? <==> s.conversation.step == NameSet && ValidateDirectory(args).Ok?
    ensures t.reply.Err? ==> t.next == s
    ensures t.reply.Ok? ==> t.next == s.(conversation := s.conversation.(step := DirectorySet, projectDirectory := Some(ValidateDirectory(args).value)))
  {
    if s.conversation.step != NameSet then Refuse(s, StepOrderViolation)
    else match ValidateDirectory(args)
      case Err(e) => Refuse(s, InvalidInput(e))
      case Ok(dir) => Transition(s.(conversation := s.conversation.(projectDirectory := Some(dir), step := DirectorySet)), Ok(Nothing))
  }

  /** setProjectTechnology: only after the directory; stores "typescript" or "python". */
  function SetTechnology(s: Session, args: Args): (t: Transition)
    ensures t.reply == Err(StepOrderViolation) <==> s.conversation.step != DirectorySet
    ensures t.reply.Ok? <==> s.conversation.step == DirectorySet && ValidateTechnology(args).Ok?
    ensures t.reply.Err? ==> t.next == s
    ensures t.reply.Ok? ==> t.next == s.(conversation := s.conversation.(step := TechnologySet, technology := Some(ValidateTechnology(args).value)))
  {
    if s.conversation.step != DirectorySet then Refuse(s, StepOrderViolation)
    else match ValidateTechnology(args)
      case Err(e) => Refuse(s, InvalidInput(e))
      case Ok(tech) => Transition(s.(conversation := s.conversation.(technology := Some(tech), step := TechnologySet)), Ok(Nothing))
  }

  /** setProjectDescription: only after the technology; stores the trimmed description. */
  function SetDescription(s: Session, args: Args): (t: Transition)
    ensures t.reply == Err(StepOrderViolation) <==> s.conversation.step != TechnologySet
    ensures t.reply.Ok? <==> s.conversation.step == TechnologySet && ValidateDescription(args).Ok?
    ensures t.reply.Err? ==> t.next == s
    ensures t.reply.Ok? ==> t.next == s.(conversation := s.conversation.(step := DescriptionSet, description := Some(ValidateDescription(args).value)))
  {
    if s.conversation.step != TechnologySet then Refuse(s, StepOrderViolation)
    else match ValidateDescription(args)
      case Err(e) => Refuse(s, InvalidInput(e))
      case Ok(desc) => Transition(s.(conversation := s.conversation.(description := Some(desc), step := DescriptionSet)), Ok(Nothing))
  }

  /** addProjectDocumentation: only after the description, and then it always succeeds; both
      documentation fields are overwritten, with `None` where the argument has nothing usable. */
  function AddDocumentation(s: Session, args: Args): (t: Transition)
    ensures t.reply.Ok? <==> s.conversation.step == DescriptionSet
    ensures t.reply.Err? ==> t.next == s && t.reply == Err(StepOrderViolation)
    ensures t.reply.Ok? ==>
              var d := ValidateDocumentation(args);
              t.next == s.(conversation := s.conversation.(step := DocsAdded,
                             documentationUrls := d.documentationUrls, customContext := d.customContext))
  {
    if s.conversation.step != DescriptionSet then Refuse(s, StepOrderViolation)
    else
      var d := ValidateDocumentation(args);
      Transition(s.(conversation := s.conversation.(documentationUrls := d.documentationUrls,
                                                    customContext := d.customContext, step := DocsAdded)), Ok(Nothing))
  }

  /** confirmAndProceed: never looks at or changes the step; a recognised confirmation clears the
      waiting flag and records the normalised word. */
  function Confirm(s: Session, args: Args): (t: Transition)
    ensures t.reply.Ok? <==> ValidateConfirmation(args).Ok?
    ensures t.next.conversation.step == s.conversation.step
    ensures t.reply.Err? ==> t.next == s
    ensures t.reply.Ok? ==>
              t.next == s.(conversation := s.conversation.(waitingForConfirmation := Some(false),
                             lastAction := Some("User confirmed with: " + ValidateConfirmation(args).value)))
  {
    match ValidateConfirmation(args)
    case Err(e) => Refuse(s, InvalidInput(e))
    case Ok(word) =>
      Transition(s.(conversation := s.conversation.(waitingForConfirmation := Some(false),
                                                    lastAction := Some("User confirmed with: " + word))), Ok(Nothing))
  }

  // ---------------------------------------------------------------------------------------------
  // setupProjectFoundation (src/project-initializer.ts:602-691)

  /** The four properties the foundation needs, each a non-empty string. */
  predicate Complete(c: ConversationState) {
    Truthy(c.projectName) && Truthy(c.projectDirectory) && Truthy(c.description) && Truthy(c.technology)
  }

  /** The project configuration built from the conversation. */
  function ConfigOf(c: ConversationState): (cfg: ProjectConfig)
    requires Complete(c)
    ensures cfg.name != [] && cfg.description != [] && cfg.technology != []
    ensures cfg.documentationUrls == c.documentationUrls && cfg.customContext == c.customContext
  {
    ProjectConfig(c.projectName.value, c.description.value, c.technology.value, c.documentationUrls, c.customContext)
  }

  const DocsDir: string := "docs/external/"
  const RulesDir: string := ".windsurf/rules/"

  /** The files the foundation writes, relative to the project directory: the fetched reference
      documents, the three basic files, the rules files and the PRD. */
  function FoundationFileList(project: ProjectConfig, env: Environment): (r: seq<string>)
    ensures ".gitignore" in r && "README.md" in r && "CLAUDE.md" in r && "PRD.md" in r
    ensures RulesDir + "general.md" in r
    ensures LlmsFullUrl in env.reachable ==> DocsDir + "llms-full.txt" in r
  {
    var title := TechnologyTemplate(project.technology).technology;
    var essentials := FetchedEssentials(EssentialDocs(project.technology), env.reachable);
    var user := match project.documentationUrls
      case Some(urls) => FetchedUserDocs(urls, env.reachable, env.pathnames)
      case None => [];
    FetchedEssentialsExact(EssentialDocs(project.technology), env.reachable, "llms-full.txt");
    assert EssentialDocs(project.technology)[0] in EssentialDocs(project.technology);
    var rules := RulesFiles(title, env.ruleAssets);
    var fetched := Under(DocsDir, essentials + user);
    var basic := [".gitignore", "README.md", "CLAUDE.md"];
    var files := fetched + basic + Under(RulesDir, rules) + ["PRD.md"];
    assert LlmsFullUrl in env.reachable ==> DocsDir + "llms-full.txt" in fetched by {
      if LlmsFullUrl in env.reachable {
        var k :| 0 <= k < |essentials| && essentials[k] == "llms-full.txt";
        assert fetched[k] == DocsDir + "llms-full.txt";
      }
    }
    assert Under(RulesDir, rules)[0] == RulesDir + "general.md";
    assert forall f :: f in basic ==> f in files;
    files
  }

  /** The foundation's files, or the first template that is missing. */
  function FoundationFiles(project: ProjectConfig, env: Environment): (r: Result<seq<string>, TemplateError>)
    ensures r.Err? <==>
              || "README.md" !in env.projectAssets || "PRD.md" !in env.projectAssets
              || ClaudeDocument(env.projectAssets, project, TechnologyTemplate(project.technology).technology).Err?
    ensures r.Ok? ==> r.value == FoundationFileList(project, env)
  {
    var title := TechnologyTemplate(project.technology).technology;
    var readme := Render(env.projectAssets, "README.md", ReadmeVariables(project));
    var claude := ClaudeDocument(env.projectAssets, project, title);
    var prd := Render(env.projectAssets, "PRD.md", PrdVariables(project));
    if readme.Err? then Err(readme.error)
    else if claude.Err? then Err(claude.error)
    else if prd.Err? then Err(prd.error)
    else Ok(FoundationFileList(project, env))
  }

  /** The directories the foundation creates under the project directory. */
  function FoundationDirectories(project: ProjectConfig): (r: seq<string>)
    ensures "docs/external" in r && ".windsurf/rules" in r
    ensures forall d :: d in TechnologyTemplate(project.technology).directories ==> d in r
  {
    ["docs/external"] + TechnologyTemplate(project.technology).directories + [".windsurf", ".windsurf/rules"]
  }

  /** setupProjectFoundation. From DescriptionSet the step first moves to DocsAdded, so every later
      failure leaves it there. The missing-field check comes next; then the current project is
      recorded, the project directory is created and becomes the working directory, and the files are
      written. Success ends at FoundationReady with `foundationSetup` true. A failure after the
      missing-field check keeps the recorded project, and, once the project directory exists, the new
      working directory: nothing is rolled back. */
  function SetupFoundation(s: Session, env: Environment): (t: Transition)
    ensures t.reply == Err(StepOrderViolation) <==> s.conversation.step != DescriptionSet && s.conversation.step != DocsAdded
    ensures t.reply == Err(StepOrderViolation) ==> t.next == s
    ensures t.reply != Err(StepOrderViolation) ==> t.next.conversation.step in {DocsAdded, FoundationReady}
    ensures t.reply == Err(MissingConfiguration) <==>
              (s.conversation.step == DescriptionSet || s.conversation.step == DocsAdded) && !Complete(s.conversation)
    ensures t.reply == Err(MissingConfiguration) ==>
              t.next == s.(conversation := s.conversation.(step := DocsAdded))
    ensures t.reply.Err? ==> t.next.conversation in {s.conversation, s.conversation.(step := DocsAdded)}
    ensures t.reply.Err? && t.reply != Err(StepOrderViolation) && t.reply != Err(MissingConfiguration) ==>
              && Complete(s.conversation)
              && t.next.currentProject == Some(ConfigOf(s.conversation))
              && t.next.workingDirectory ==
                   if env.fault == RootFault then s.workingDirectory
                   else ProjectRoot(s.conversation.projectDirectory.value, s.conversation.projectName.value)
  {
    var c := s.conversation;
    if c.step != DocsAdded && c.step != DescriptionSet then Refuse(s, StepOrderViolation)
    else
      var c1 := c.(step := DocsAdded);
      assert Complete(c1) == Complete(c);
      if !Complete(c1) then Transition(s.(conversation := c1), Err(MissingConfiguration))
      else
        var project := ConfigOf(c);
        assert ConfigOf(c1) == project;
        var root := ProjectRoot(c.projectDirectory.value, c.projectName.value);
        if env.fault == RootFault then Transition(Session(c1, Some(project), s.workingDirectory), Err(WriteFailed))
        else if env.fault == WriteFault then Transition(Session(c1, Some(project), root), Err(WriteFailed))
        else
          WriteFoundation(Session(c1, Some(project), root), project, FoundationFiles(project, env))
  }

  /** The foundation succeeds exactly when it is its turn, the configuration is complete, the file
      system works and the templates are present; it then records the project, moves into the project
      directory and writes the planned files. */
  lemma SetupFoundationOutcome(s: Session, env: Environment)
    ensures var t := SetupFoundation(s, env);
            t.reply.Ok? <==>
              && (s.conversation.step == DescriptionSet || s.conversation.step == DocsAdded)
              && Complete(s.conversation) && env.fault == NoFault
              && FoundationFiles(ConfigOf(s.conversation), env).Ok?
    ensures var t := SetupFoundation(s, env);
            t.reply.Ok? ==>
              && t.next.conversation == s.conversation.(step := FoundationReady, foundationSetup := Some(true))
              && t.next.currentProject == Some(ConfigOf(s.conversation))
              && t.next.workingDirectory == ProjectRoot(s.conversation.projectDirectory.value, s.conversation.projectName.value)
              && t.reply.value.files == FoundationFiles(ConfigOf(s.conversation), env).value
  {
    var c := s.conversation;
    var c1 := c.(step := DocsAdded);
    assert Complete(c1) == Complete(c);
    if (c.step == DescriptionSet || c.step == DocsAdded) && Complete(c) && env.fault == NoFault {
      var project := ConfigOf(c);
      var root := ProjectRoot(c.projectDirectory.value, c.projectName.value);
      assert SetupFoundation(s, env) == WriteFoundation(Session(c1, Some(project), root), project, FoundationFiles(project, env));
    }
  }

  /** The last part of the foundation, once the project directory exists: the files are written and
      the conversation reaches FoundationReady, or a template is missing and nothing more changes. */
  function WriteFoundation(s: Session, project: ProjectConfig, plan: Result<seq<string>, TemplateError>): (t: Transition)
    ensures plan.Err? ==> t == Transition(s, Err(TemplateMissing(plan.error)))
    ensures plan.Ok? ==> t.reply == Ok(Written(FoundationDirectories(project), plan.value))
    ensures plan.Ok? ==> t.next == s.(conversation := s.conversation.(foundationSetup := Some(true), step := FoundationReady))
  {
    match plan
    case Err(e) => Transition(s, Err(TemplateMissing(e)))
    case Ok(files) =>
      Transition(s.(conversation := s.conversation.(foundationSetup := Some(true), step := FoundationReady)),
                 Ok(Written(FoundationDirectories(project), files)))
  }

  // ---------------------------------------------------------------------------------------------
  // generateMCPServer (src/project-initializer.ts:693-768)

  /** generateMCPServer: only at FoundationReady and with a current project; writes the configuration
      files of the technology and IMPLEMENTATION.md, and completes the conversation. */
  function GenerateServer(s: Session, env: Environment): (t: Transition)
    ensures t.reply == Err(StepOrderViolation) <==> s.conversation.step != FoundationReady
    ensures t.reply == Err(MissingConfiguration) <==> s.conversation.step == FoundationReady && s.currentProject.None?
    ensures t.reply.Err? ==> t.next == s
    ensures t.reply.Ok? <==>
              && s.conversation.step == FoundationReady && s.currentProject.Some?
              && env.fault == NoFault && "IMPLEMENTATION.md" in env.projectAssets
    ensures t.reply.Ok? ==>
              && t.next == s.(conversation := s.conversation.(step := Completed))
              && t.reply.value.files == ConfigFiles(s.currentProject.value.technology) + ["IMPLEMENTATION.md"]
  {
    if s.conversation.step != FoundationReady then Refuse(s, StepOrderViolation)
    else if s.currentProject.None? then Refuse(s, MissingConfiguration)
    else
      var project := s.currentProject.value;
      if env.fault != NoFault then Refuse(s, WriteFailed)
      else match ImplementationDocument(env.projectAssets, project)
        case Err(e) => Refuse(s, TemplateMissing(e))
        case Ok(_) =>
          Transition(s.(conversation := s.conversation.(step := Completed)),
                     Ok(Written([], ConfigFiles(project.technology) + ["IMPLEMENTATION.md"])))
  }

  // ---------------------------------------------------------------------------------------------
  // getConversationStatus (src/project-initializer.ts:218-277)

  /** The eight check marks of the status report, in order: started, name, directory, technology,
      description, documentation, foundation, server. */
  function StatusFlags(c: ConversationState): (flags: seq<bool>)
    ensures |flags| == 8
    ensures flags[0] <==> c.step != Started
    ensures flags[5] <==> Rank(c.step) >= 5
    ensures flags[7] <==> c.step == Completed
  {
    [c.step != Started, Truthy(c.projectName), Truthy(c.projectDirectory), Truthy(c.technology),
     Truthy(c.description), c.step in {DocsAdded, FoundationReady, Completed},
     c.foundationSetup == Some(true), c.step == Completed]
  }

  // ---------------------------------------------------------------------------------------------
  // Sequences of calls

  /** One call of a tool. */
  datatype Op =
    | StartOp
    | SetNameOp(args: Args)
    | SetDirectoryOp(args: Args)
    | SetTechnologyOp(args: Args)
    | SetDescriptionOp(args: Args)
    | AddDocumentationOp(args: Args)
    | ConfirmOp(args: Args)
    | SetupFoundationOp
    | GenerateServerOp

  function Apply(s: Session, op: Op, env: Environment): Transition {
    match op
    case StartOp => Start(s)
    case SetNameOp(a) => SetName(s, a)
    case SetDirectoryOp(a) => SetDirectory(s, a)
    case SetTechnologyOp(a) => SetTechnology(s, a)
    case SetDescriptionOp(a) => SetDescription(s, a)
    case AddDocumentationOp(a) => AddDocumentation(s, a)
    case ConfirmOp(a) => Confirm(s, a)
    case SetupFoundationOp => SetupFoundation(s, env)
    case GenerateServerOp => GenerateServer(s, env)
  }

  /** The session after a sequence of calls, each against its own view of the outside world. */
  function Run(s: Session, ops: seq<Op>, envs: seq<Environment>): Session
    requires |envs| == |ops|
    decreases |ops|
  {
    if ops == [] then s else Run(Apply(s, ops[0], envs[0]).next, ops[1..], envs[1..])
  }

  /** A field that holds a non-empty trimmed string, as the name and description validators store. */
  predicate StoredText(v: Option<string>) {
    v.Some? && v.value != [] && IsTrimmed(v.value)
  }

  /** What reaching a step guarantees: every field of an earlier step holds a value its validator
      accepts, and from FoundationReady on the current project and working directory are those the
      foundation recorded. */
  predicate Inv(s: Session) {
    var c := s.conversation;
    var r := Rank(c.step);
    && (r >= 1 ==> StoredText(c.projectName))
    && (r >= 2 ==> c.projectDirectory.Some? && IsTrimmed(c.projectDirectory.value) && Arguments.IsAbsolute(c.projectDirectory.value))
    && (r >= 3 ==> c.technology == Some("typescript") || c.technology == Some("python"))
    && (r >= 4 ==> StoredText(c.description))
    && (r >= 6 ==> && c.foundationSetup == Some(true) && Complete(c)
                   && s.currentProject == Some(ConfigOf(c))
                   && s.workingDirectory == ProjectRoot(c.projectDirectory.value, c.projectName.value))
  }

  /** Restarting keeps the invariant: the fresh conversation asks nothing. */
  lemma StartKeepsInv(s: Session)
    ensures Inv(Start(s).next)
  {
  }

  /** A new name is stored trimmed and non-empty; the step falls back to NameSet. */
  lemma NameKeepsInv(s: Session, args: Args)
    requires Inv(s)
    ensures Inv(SetName(s, args).next)
  {
    var t := SetName(s, args);
    if t.reply.Ok? {
      assert t.next.conversation.step == NameSet;
      assert StoredText(t.next.conversation.projectName);
    }
  }

  /** The directory is stored trimmed and absolute. */
  lemma DirectoryKeepsInv(s: Session, args: Args)
    requires Inv(s)
    ensures Inv(SetDirectory(s, args).next)
  {
    var t := SetDirectory(s, args);
    if t.reply.Ok? {
      assert Rank(s.conversation.step) == 1 && t.next.conversation.step == DirectorySet;
      assert t.next.conversation.projectDirectory == Some(ValidateDirectory(args).value);
    }
  }

  /** The technology is one of the two supported values. */
  lemma TechnologyKeepsInv(s: Session, args: Args)
    requires Inv(s)
    ensures Inv(SetTechnology(s, args).next)
  {
    var t := SetTechnology(s, args);
    if t.reply.Ok? {
      assert Rank(s.conversation.step) == 2 && t.next.conversation.step == TechnologySet;
      assert t.next.conversation.technology == Some(ValidateTechnology(args).value);
    }
  }

  /** The description is stored trimmed and non-empty. */
  lemma DescriptionKeepsInv(s: Session, args: Args)
    requires Inv(s)
    ensures Inv(SetDescription(s, args).next)
  {
    var t := SetDescription(s, args);
    if t.reply.Ok? {
      assert Rank(s.conversation.step) == 3 && t.next.conversation.step == DescriptionSet;
      assert StoredText(t.next.conversation.description);
    }
  }

  /** Documentation touches no field the invariant constrains. */
  lemma DocumentationKeepsInv(s: Session, args: Args)
    requires Inv(s)
    ensures Inv(AddDocumentation(s, args).next)
  {
    var t := AddDocumentation(s, args);
    if t.reply.Ok? {
      assert Rank(s.conversation.step) == 4 && t.next.conversation.step == DocsAdded;
    }
  }

  /** The invariant says nothing about the confirmation fields. */
  lemma InvIgnoresConfirmation(s: Session, waiting: Option<bool>, last: Option<string>)
    requires Inv(s)
    ensures Inv(s.(conversation := s.conversation.(waitingForConfirmation := waiting, lastAction := last)))
  {
    var c := s.conversation;
    var c2 := c.(waitingForConfirmation := waiting, lastAction := last);
    assert Complete(c2) == Complete(c);
    if Complete(c) {
      assert ConfigOf(c2) == ConfigOf(c);
    }
  }

  /** Neither does a confirmation, whose step stays where it was. */
  lemma ConfirmKeepsInv(s: Session, args: Args)
    requires Inv(s)
    ensures Inv(Confirm(s, args).next)
  {
    var t := Confirm(s, args);
    if t.reply.Ok? {
      var c2 := t.next.conversation;
      assert t.next == s.(conversation := s.conversation.(waitingForConfirmation := c2.waitingForConfirmation, lastAction := c2.lastAction));
      InvIgnoresConfirmation(s, c2.waitingForConfirmation, c2.lastAction);
    }
  }

  /** The foundation records exactly the project and directory the invariant describes. */
  lemma FoundationKeepsInv(s: Session, env: Environment)
    requires Inv(s)
    ensures Inv(SetupFoundation(s, env).next)
  {
    var c := s.conversation;
    var t := SetupFoundation(s, env);
    if c.step != DescriptionSet && c.step != DocsAdded {
      assert t.next == s;
    } else if t.reply.Ok? {
      FoundationSucceedsInv(s, env);
    } else {
      assert Rank(c.step) >= 4;
      assert t.next.conversation.step in {DescriptionSet, DocsAdded};
    }
  }

  /** A successful foundation records the project and directory that the invariant describes. */
  lemma FoundationSucceedsInv(s: Session, env: Environment)
    requires Inv(s)
    requires SetupFoundation(s, env).reply.Ok?
    ensures Inv(SetupFoundation(s, env).next)
  {
    var c := s.conversation;
    SetupFoundationOutcome(s, env);
    assert Rank(c.step) >= 4;
    var c2 := c.(step := FoundationReady, foundationSetup := Some(true));
    assert Complete(c2) == Complete(c) && ConfigOf(c2) == ConfigOf(c);
    assert SetupFoundation(s, env).next.conversation == c2;
  }

  /** Generation only advances a conversation that already had its foundation. */
  lemma ServerKeepsInv(s: Session, env: Environment)
    requires Inv(s)
    ensures Inv(GenerateServer(s, env).next)
  {
  }

  /** Every operation keeps the invariant, whatever the outside world does. */
  lemma ApplyPreservesInv(s: Session, op: Op, env: Environment)
    requires Inv(s)
    ensures Inv(Apply(s, op, env).next)
  {
    match op
    case StartOp => StartKeepsInv(s);
    case SetNameOp(a) => NameKeepsInv(s, a);
    case SetDirectoryOp(a) => DirectoryKeepsInv(s, a);
    case SetTechnologyOp(a) => TechnologyKeepsInv(s, a);
    case SetDescriptionOp(a) => DescriptionKeepsInv(s, a);
    case AddDocumentationOp(a) => DocumentationKeepsInv(s, a);
    case ConfirmOp(a) => ConfirmKeepsInv(s, a);
    case SetupFoundationOp => FoundationKeepsInv(s, env);
    case GenerateServerOp => ServerKeepsInv(s, env);
  }

  /** The invariant holds after any sequence of calls that starts where it holds. */
  lemma {:induction false} RunPreservesInv(s: Session, ops: seq<Op>, envs: seq<Environment>)
    requires |envs| == |ops|
    requires Inv(s)
    ensures Inv(Run(s, ops, envs))
    decreases |ops|
  {
    if ops != [] {
      ApplyPreservesInv(s, ops[0], envs[0]);
      RunPreservesInv(Apply(s, ops[0], envs[0]).next, ops[1..], envs[1..]);
    }
  }

  /** A fresh initializer satisfies the invariant, whatever its working directory. */
  lemma FreshSessionInv(cwd: string)
    ensures Inv(Session(Initial, None, cwd))
  {
  }

  /** In a conversation that followed the steps, the foundation never finds a field missing. */
  lemma FoundationFindsFields(s: Session, env: Environment)
    requires Inv(s)
    requires s.conversation.step == DescriptionSet || s.conversation.step == DocsAdded
    ensures SetupFoundation(s, env).reply != Err(MissingConfiguration)
  {
    assert Complete(s.conversation);
  }

  /** In a conversation that followed the steps, the generator always finds a current project. */
  lemma ServerFindsProject(s: Session, env: Environment)
    requires Inv(s)
    requires s.conversation.step == FoundationReady
    ensures GenerateServer(s, env).reply != Err(MissingConfiguration)
  {
  }

  /** The status report marks every step up to the current one, and the documentation and server
      marks exactly when those steps are reached. */
  lemma StatusReflectsProgress(s: Session)
    requires Inv(s)
    ensures var flags := StatusFlags(s.conversation);
            && (flags[0] <==> Rank(s.conversation.step) >= 1)
            && (forall k :: 1 <= k <= 4 && k <= Rank(s.conversation.step) ==> flags[k])
            && (flags[5] <==> Rank(s.conversation.step) >= 5)
            && (Rank(s.conversation.step) >= 6 ==> flags[6])
            && (flags[7] <==> Rank(s.conversation.step) == 7)
  {
  }

  /** Renaming goes back to NameSet but keeps the later fields, so a field can be present although its
      step has not been reached since: the fields follow the steps in one direction only. */
  lemma RenameKeepsLaterFields(s: Session, args: Args)
    requires Inv(s) && s.conversation.step == DocsAdded
    requires ValidateName(args).Ok?
    ensures var n := SetName(s, args).next;
            && Inv(n) && Rank(n.conversation.step) == 1
            && n.conversation.technology.Some? && n.conversation.description.Some?
  {
  }

  /** Every step operation that succeeds moves exactly one step forward, except that the foundation
      moves two from DescriptionSet; a rename goes to NameSet, a restart to Started, and a confirmation
      stays put. */
  lemma StepsMoveForward(s: Session, op: Op, env: Environment)
    requires Apply(s, op, env).reply.Ok?
    ensures var r := Rank(s.conversation.step);
            var r' := Rank(Apply(s, op, env).next.conversation.step);
            match op
            case StartOp => r' == 0
            case SetNameOp(_) => r' == 1
            case ConfirmOp(_) => r' == r
            case SetupFoundationOp => r' == 6 && (r == 4 || r == 5)
            case _ => r' == r + 1
  {
    match op
    case StartOp =>
    case ConfirmOp(a) =>
      assert Confirm(s, a).next.conversation.step == s.conversation.step;
    case SetupFoundationOp => FoundationMovesForward(s, env);
    case GenerateServerOp =>
      assert s.conversation.step == FoundationReady && GenerateServer(s, env).next.conversation.step == Completed;
    case _ => AnswerMovesForward(s, op, env);
  }

  /** An accepted answer sets its own step: the name NameSet, any other answer the step after the
      one it is given at. */
  lemma AnswerMovesForward(s: Session, op: Op, env: Environment)
    requires op.SetNameOp? || op.SetDirectoryOp? || op.SetTechnologyOp? || op.SetDescriptionOp? || op.AddDocumentationOp?
    requires Apply(s, op, env).reply.Ok?
    ensures Rank(Apply(s, op, env).next.conversation.step) == if op.SetNameOp? then 1 else Rank(s.conversation.step) + 1
  {
    match op
    case SetNameOp(a) =>
      assert SetName(s, a).next.conversation.step == NameSet;
    case SetDirectoryOp(a) =>
      assert s.conversation.step == NameSet && SetDirectory(s, a).next.conversation.step == DirectorySet;
    case SetTechnologyOp(a) =>
      assert s.conversation.step == DirectorySet && SetTechnology(s, a).next.conversation.step == TechnologySet;
    case SetDescriptionOp(a) =>
      assert s.conversation.step == TechnologySet && SetDescription(s, a).next.conversation.step == DescriptionSet;
    case AddDocumentationOp(a) =>
      assert s.conversation.step == DescriptionSet && AddDocumentation(s, a).next.conversation.step == DocsAdded;
  }

  /** A successful foundation starts from DescriptionSet or DocsAdded and ends at FoundationReady. */
  lemma FoundationMovesForward(s: Session, env: Environment)
    requires SetupFoundation(s, env).reply.Ok?
    ensures Rank(SetupFoundation(s, env).next.conversation.step) == 6
    ensures Rank(s.conversation.step) == 4 || Rank(s.conversation.step) == 5
  {
    SetupFoundationOutcome(s, env);
  }

  /** The walk-through: a restart followed by valid answers for every step, a foundation and a
      generation with the templates present and a working file system, ends completed, with the
      foundation marked done and the working directory inside the chosen directory. */
  lemma EndToEnd(s0: Session, nameArgs: Args, dirArgs: Args, techArgs: Args, descArgs: Args, env: Environment)
    requires ValidateName(nameArgs).Ok? && ValidateDirectory(dirArgs).Ok?
    requires ValidateTechnology(techArgs).Ok? && ValidateDescription(descArgs).Ok?
    requires env.fault == NoFault
    requires "README.md" in env.projectAssets && "CLAUDE.md" in env.projectAssets && "PRD.md" in env.projectAssets
    requires "IMPLEMENTATION.md" in env.projectAssets
    ensures var s1 := Start(s0).next;
            var s2 := SetName(s1, nameArgs).next;
            var s3 := SetDirectory(s2, dirArgs).next;
            var s4 := SetTechnology(s3, techArgs).next;
            var s5 := SetDescription(s4, descArgs).next;
            var f := SetupFoundation(s5, env);
            var g := GenerateServer(f.next, env);
            && f.reply.Ok? && g.reply.Ok?
            && g.next.conversation.step == Completed && g.next.conversation.foundationSetup == Some(true)
            && g.next.workingDirectory == ProjectRoot(ValidateDirectory(dirArgs).value, ValidateName(nameArgs).value)
            && "README.md" in f.reply.value.files && "PRD.md" in f.reply.value.files
  {
    var s1 := Start(s0).next;
    var s2 := SetName(s1, nameArgs).next;
    assert s2.conversation == Initial.(projectName := Some(ValidateName(nameArgs).value), step := NameSet);
    var s3 := SetDirectory(s2, dirArgs).next;
    assert s3.conversation == s2.conversation.(projectDirectory := Some(ValidateDirectory(dirArgs).value), step := DirectorySet);
    var s4 := SetTechnology(s3, techArgs).next;
    assert s4.conversation == s3.conversation.(technology := Some(ValidateTechnology(techArgs).value), step := TechnologySet);
    var s5 := SetDescription(s4, descArgs).next;
    assert s5.conversation == s4.conversation.(description := Some(ValidateDescription(descArgs).value), step := DescriptionSet);
    assert Complete(s5.conversation);
    var project := ConfigOf(s5.conversation);
    assert TechnologyTemplate(project.technology).technology != McpLabel;
    assert FoundationFiles(project, env).Ok?;
    SetupFoundationOutcome(s5, env);
    var f := SetupFoundation(s5, env);
    assert f.next.conversation.step == FoundationReady && f.next.currentProject == Some(project);
    assert ImplementationDocument(env.projectAssets, project).Ok?;
  }
}
