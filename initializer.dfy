/** The `ProjectInitializer` class itself (src/project-initializer.ts:23-277, 602-768): three fields
    that the tool handlers update in place. Each handler is proved to leave the object in the state,
    and to give the reply, that the matching transition of the Workflow module prescribes. */
module Initializer {
  import opened Wrappers
  import opened Arguments
  import opened Templates
  import opened Generation
  import opened Workflow

  /** README.md, with the name and description defaulted when empty (src/project-initializer.ts:496-504). */
  method GenerateReadme(assets: map<string, string>, project: ProjectConfig) returns (r: Result<string, TemplateError>)
    ensures r.Err? <==> "README.md" !in assets
    ensures r.Err? ==> r.error == TemplateNotFound("README.md")
    ensures r.Ok? ==> r.value == Substitute(assets["README.md"], ReadmeVariables(project))
  {
    r := LoadTemplate(assets, "README.md", ReadmeVariables(project));
  }

  /** CLAUDE.md for a template title (src/project-initializer.ts:507-522): the protocol-specific title
      first loads its extra content, and a failure there stops before CLAUDE.md is read. */
  method GenerateClaudeMd(assets: map<string, string>, project: ProjectConfig, title: string)
    returns (r: Result<string, TemplateError>)
    ensures r == ClaudeDocument(assets, project, title)
  {
    var extra: Result<string, TemplateError> := Ok("");
    if title == McpLabel {
      extra := LoadTemplate(assets, "mcp-specific-content.md", []);
      if extra.Err? {
        return Err(extra.error);
      }
    }
    var vars := [("description", OrElse(project.description, "AI-powered project")), ("technology", title),
                 ("technologySlug", Slug(title)), ("mcpSpecificContent", extra.value)];
    r := LoadTemplate(assets, "CLAUDE.md", vars);
  }

  /** PRD.md with the external documentation section included (src/project-initializer.ts:876-904). */
  method GeneratePrdContent(assets: map<string, string>, project: ProjectConfig) returns (r: Result<string, TemplateError>)
    ensures r.Err? <==> "PRD.md" !in assets
    ensures r.Err? ==> r.error == TemplateNotFound("PRD.md")
    ensures r.Ok? ==> r.value == Substitute(assets["PRD.md"], PrdVariables(project))
  {
    var section := BuildExternalDocsSection(true, project.documentationUrls);
    var vars := [("projectName", project.name), ("technology", project.technology), ("description", project.description),
                 ("additionalContext", AdditionalContext(project.customContext)),
                 ("externalDocumentationSection", section)];
    r := LoadTemplate(assets, "PRD.md", vars);
  }

  /** IMPLEMENTATION.md (src/project-initializer.ts:906-937): the instructions of the technology are
      loaded first, and their absence is tolerated. */
  method GenerateImplementationGuide(assets: map<string, string>, project: ProjectConfig)
    returns (r: Result<string, TemplateError>)
    ensures r == ImplementationDocument(assets, project)
  {
    var instructions := "";
    var asset := InstructionsAsset(project.technology);
    if asset.Some? {
      var loaded := LoadTemplate(assets, asset.value, [("projectName", project.name)]);
      if loaded.Ok? {
        instructions := loaded.value;
      }
    }
    assert instructions == TechnologyInstructions(assets, project);
    r := LoadTemplate(assets, "IMPLEMENTATION.md",
      [("projectName", project.name), ("technology", project.technology), ("technologySlug", Slug(project.technology)),
       ("description", project.description), ("technologySpecificInstructions", instructions)]);
  }

  /** The part of setupProjectFoundation after the project directory exists (src/project-initializer.ts:640-662):
      the reference documents are downloaded, then README.md and CLAUDE.md are rendered, then PRD.md;
      the first missing template stops the plan. */
  method PlanFoundation(project: ProjectConfig, env: Environment) returns (plan: Result<seq<string>, TemplateError>)
    ensures plan == FoundationFiles(project, env)
  {
    var title := TechnologyTemplate(project.technology).technology;
    var essentials := DownloadEssentials(EssentialDocs(project.technology), env.reachable);
    var external: seq<string> := [];
    if project.documentationUrls.Some? && project.documentationUrls.value != [] {
      external := GatherExternal(project.documentationUrls.value, env.reachable, env.pathnames);
    }
    assert external == match project.documentationUrls
      case Some(urls) => FetchedUserDocs(urls, env.reachable, env.pathnames)
      case None => [];
    var readme := GenerateReadme(env.projectAssets, project);
    if readme.Err? {
      return Err(readme.error);
    }
    var claude := GenerateClaudeMd(env.projectAssets, project, title);
    if claude.Err? {
      return Err(claude.error);
    }
    var prd := GeneratePrdContent(env.projectAssets, project);
    if prd.Err? {
      return Err(prd.error);
    }
    var files := Under(DocsDir, essentials + external) + [".gitignore", "README.md", "CLAUDE.md"]
                 + Under(RulesDir, RulesFiles(title, env.ruleAssets)) + ["PRD.md"];
    assert files == FoundationFileList(project, env);
    plan := Ok(files);
  }

  class ProjectInitializer {
    var currentProject: Option<ProjectConfig>
    var workingDirectory: string
    var conversationState: ConversationState

    /** The fields as one value. */
    function Snapshot(): Session
      reads this
    {
      Session(conversationState, currentProject, workingDirectory)
    }

    /** A new initializer: no project, the conversation at its start, and the process's current
        directory, passed in here, as working directory. */
    constructor(cwd: string)
      ensures Snapshot() == Session(Initial, None, cwd)
      ensures Inv(Snapshot())
    {
      currentProject := None;
      workingDirectory := cwd;
      conversationState := Initial;
    }

    /** startMCPProject. */
    method StartMCPProject() returns (reply: Result<Written, Failure>)
      modifies this
      ensures Snapshot() == Start(old(Snapshot())).next && reply == Start(old(Snapshot())).reply
    {
      conversationState := Initial;
      reply := Ok(Nothing);
    }

    /** setProjectName. */
    method SetProjectName(args: Args) returns (reply: Result<Written, Failure>)
      modifies this
      ensures Snapshot() == SetName(old(Snapshot()), args).next && reply == SetName(old(Snapshot()), args).reply
    {
      var name := ValidateName(args);
      if name.Err? {
        return Err(InvalidInput(name.error));
      }
      conversationState := conversationState.(projectName := Some(name.value));
      conversationState := conversationState.(step := NameSet);
      reply := Ok(Nothing);
    }

    /** setProjectDirectory. */
    method SetProjectDirectory(args: Args) returns (reply: Result<Written, Failure>)
      modifies this
      ensures Snapshot() == SetDirectory(old(Snapshot()), args).next && reply == SetDirectory(old(Snapshot()), args).reply
    {
      if conversationState.step != NameSet {
        return Err(StepOrderViolation);
      }
      var directory := ValidateDirectory(args);
      if directory.Err? {
        return Err(InvalidInput(directory.error));
      }
      conversationState := conversationState.(projectDirectory := Some(directory.value));
      conversationState := conversationState.(step := DirectorySet);
      reply := Ok(Nothing);
    }

    /** setProjectTechnology. */
    method SetProjectTechnology(args: Args) returns (reply: Result<Written, Failure>)
      modifies this
      ensures Snapshot() == SetTechnology(old(Snapshot()), args).next && reply == SetTechnology(old(Snapshot()), args).reply
    {
      if conversationState.step != DirectorySet {
        return Err(StepOrderViolation);
      }
      var technology := ValidateTechnology(args);
      if technology.Err? {
        return Err(InvalidInput(technology.error));
      }
      conversationState := conversationState.(technology := Some(technology.value));
      conversationState := conversationState.(step := TechnologySet);
      reply := Ok(Nothing);
    }

    /** setProjectDescription. */
    method SetProjectDescription(args: Args) returns (reply: Result<Written, Failure>)
      modifies this
      ensures Snapshot() == SetDescription(old(Snapshot()), args).next && reply == SetDescription(old(Snapshot()), args).reply
    {
      if conversationState.step != TechnologySet {
        return Err(StepOrderViolation);
      }
      var description := ValidateDescription(args);
      if description.Err? {
        return Err(InvalidInput(description.error));
      }
      conversationState := conversationState.(description := Some(description.value));
      conversationState := conversationState.(step := DescriptionSet);
      reply := Ok(Nothing);
    }

    /** addProjectDocumentation. */
    method AddProjectDocumentation(args: Args) returns (reply: Result<Written, Failure>)
      modifies this
      ensures Snapshot() == AddDocumentation(old(Snapshot()), args).next && reply == AddDocumentation(old(Snapshot()), args).reply
    {
      if conversationState.step != DescriptionSet {
        return Err(StepOrderViolation);
      }
      var documentation := ValidateDocumentation(args);
      conversationState := conversationState.(documentationUrls := documentation.documentationUrls);
      conversationState := conversationState.(customContext := documentation.customContext);
      conversationState := conversationState.(step := DocsAdded);
      reply := Ok(Nothing);
    }

    /** confirmAndProceed. */
    method ConfirmAndProceed(args: Args) returns (reply: Result<Written, Failure>)
      modifies this
      ensures Snapshot() == Confirm(old(Snapshot()), args).next && reply == Confirm(old(Snapshot()), args).reply
    {
      var confirmation := ValidateConfirmation(args);
      if confirmation.Err? {
        return Err(InvalidInput(confirmation.error));
      }
      conversationState := conversationState.(waitingForConfirmation := Some(false));
      conversationState := conversationState.(lastAction := Some("User confirmed with: " + confirmation.value));
      reply := Ok(Nothing);
    }

    /** getConversationStatus: the check marks of the report; nothing changes. */
    method GetConversationStatus() returns (flags: seq<bool>)
      ensures flags == StatusFlags(conversationState)
      ensures |flags| == 8 && (flags[7] <==> conversationState.step == Completed)
    {
      flags := [conversationState.step != Started, Truthy(conversationState.projectName),
                Truthy(conversationState.projectDirectory), Truthy(conversationState.technology),
                Truthy(conversationState.description),
                conversationState.step in {DocsAdded, FoundationReady, Completed},
                conversationState.foundationSetup == Some(true), conversationState.step == Completed];
    }

    /** setupProjectFoundation. */
    method SetupProjectFoundation(env: Environment) returns (reply: Result<Written, Failure>)
      modifies this
      ensures Snapshot() == SetupFoundation(old(Snapshot()), env).next && reply == SetupFoundation(old(Snapshot()), env).reply
    {
      if conversationState.step != DocsAdded && conversationState.step != DescriptionSet {
        return Err(StepOrderViolation);
      }
      if conversationState.step == DescriptionSet {
        conversationState := conversationState.(step := DocsAdded);
      }
      if !Complete(conversationState) {
        return Err(MissingConfiguration);
      }
      var project := ConfigOf(conversationState);
      currentProject := Some(project);
      if env.fault == RootFault {
        return Err(WriteFailed);
      }
      workingDirectory := ProjectRoot(conversationState.projectDirectory.value, project.name);
      if env.fault == WriteFault {
        return Err(WriteFailed);
      }
      assert Snapshot() == Session(conversationState, Some(project), workingDirectory);
      var plan := PlanFoundation(project, env);
      if plan.Err? {
        return Err(TemplateMissing(plan.error));
      }
      conversationState := conversationState.(foundationSetup := Some(true));
      conversationState := conversationState.(step := FoundationReady);
      reply := Ok(Written(FoundationDirectories(project), plan.value));
    }

    /** generateMCPServer. */
    method GenerateMCPServer(env: Environment) returns (reply: Result<Written, Failure>)
      modifies this
      ensures Snapshot() == GenerateServer(old(Snapshot()), env).next && reply == GenerateServer(old(Snapshot()), env).reply
    {
      if conversationState.step != FoundationReady {
        return Err(StepOrderViolation);
      }
      if currentProject.None? {
        return Err(MissingConfiguration);
      }
      var project := currentProject.value;
      if env.fault != NoFault {
        return Err(WriteFailed);
      }
      var guide := GenerateImplementationGuide(env.projectAssets, project);
      if guide.Err? {
        return Err(TemplateMissing(guide.error));
      }
      conversationState := conversationState.(step := Completed);
      reply := Ok(Written([], ConfigFiles(project.technology) + ["IMPLEMENTATION.md"]));
    }
  }
}
