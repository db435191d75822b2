/** The pure helpers of `ProjectInitializer` that turn a finished configuration into file names,
    template variables and file plans (src/project-initializer.ts:280-600, 876-977, 693-722). */
module Generation {
  import opened Wrappers
  import opened Text
  import opened Templates
  import Arguments

  /** The configuration gathered by the conversation (src/types.ts:1-7). */
  datatype ProjectConfig = ProjectConfig(
    name: string,
    description: string,
    technology: string,
    documentationUrls: Option<seq<string>>,
    customContext: Option<string>)

  /** A file produced by direct construction (src/types.ts:15-19). */
  datatype GeneratedDocument = GeneratedDocument(filename: string, content: string, path: string)

  /** What the template table knows about a technology (src/types.ts:21-27). */
  datatype ProjectTemplate = ProjectTemplate(
    technology: string,
    rulesUrl: string,
    documentationUrls: seq<string>,
    directories: seq<string>,
    files: seq<GeneratedDocument>)

  /** The compatibility reference every project receives. */
  const LlmsFullUrl: string := "https://modelcontextprotocol.io/llms-full.txt"

  /** The title of the protocol-specific template, which switches on the extra MCP rules. */
  const McpLabel: string := "MCP (Model Context Protocol)"

  /** A JavaScript string used as a condition: `undefined` and "" are false. */
  predicate Truthy(v: Option<string>) {
    v.Some? && v.value != []
  }

  // ---------------------------------------------------------------------------------------------
  // fetchTechnologyTemplate (src/project-initializer.ts:280-332)

  /** The keys of the static template table. */
  predicate KnownTemplateKey(k: string) {
    k == "typescript" || k == "python" || k == "mcp"
  }

  /** The table entry for a lower-cased key, or the generic template that keeps the caller's title. */
  function TechnologyTemplate(technology: string): (r: ProjectTemplate)
    ensures LlmsFullUrl in r.documentationUrls
    ensures "src" in r.directories && "docs" in r.directories && ".windsurf" in r.directories
    ensures r.rulesUrl == [] && r.files == []
    ensures ToLower(technology) == "typescript" ==> r.technology == "TypeScript"
    ensures ToLower(technology) == "python" ==> r.technology == "Python"
    ensures ToLower(technology) == "mcp" ==> r.technology == McpLabel
    ensures !KnownTemplateKey(ToLower(technology)) ==>
              && r.technology == technology
              && r.documentationUrls == [LlmsFullUrl]
              && r.directories == ["src", "docs", ".windsurf"]
  {
    var key := ToLower(technology);
    if key == "typescript" then
      ProjectTemplate("TypeScript", "",
        ["https://www.typescriptlang.org/docs/", "https://nodejs.org/en/docs/", LlmsFullUrl],
        ["src", "tests", "docs", ".vscode", ".windsurf"], [])
    else if key == "python" then
      ProjectTemplate("Python", "",
        ["https://docs.python.org/3/", LlmsFullUrl],
        ["src", "tests", "docs", ".windsurf"], [])
    else if key == "mcp" then
      ProjectTemplate(McpLabel, "",
        ["https://www.typescriptlang.org/docs/", "https://nodejs.org/en/docs/", LlmsFullUrl,
         "https://modelcontextprotocol.io/docs/"],
        ["src", "tests", "docs", ".vscode", ".windsurf"], [])
    else
      ProjectTemplate(technology, "", [LlmsFullUrl], ["src", "docs", ".windsurf"], [])
  }

  /** The lookup ignores case: a known technology gets the same template however it is spelled. */
  lemma TemplateIgnoresCase(technology: string)
    requires KnownTemplateKey(ToLower(technology))
    ensures TechnologyTemplate(technology) == TechnologyTemplate(ToLower(technology))
  {
    ToLowerIdempotent(technology);
  }

  // ---------------------------------------------------------------------------------------------
  // The technology slug (src/project-initializer.ts:509, 597, 912)

  predicate AsciiAlphanumeric(c: char) {
    ('a' <= c <= 'z') || ('0' <= c <= '9')
  }

  predicate SlugChar(c: char) {
    AsciiAlphanumeric(c) || c == '-'
  }

  /** `technology.toLowerCase().replace(/[^a-z0-9]/g, '-')`. */
  function Slug(technology: string): (r: string)
    ensures |r| == |technology|
    ensures forall i :: 0 <= i < |r| ==> SlugChar(r[i])
    ensures forall i :: 0 <= i < |r| ==> (AsciiAlphanumeric(LowerChar(technology[i])) <==> r[i] != '-')
    ensures forall i :: 0 <= i < |r| && r[i] != '-' ==> r[i] == LowerChar(technology[i])
  {
    seq(|technology|, i requires 0 <= i < |technology| =>
      var c := LowerChar(technology[i]);
      if AsciiAlphanumeric(c) then c else '-')
  }

  /** A slug is its own slug, and the slug does not depend on case. */
  lemma SlugStable(technology: string)
    ensures Slug(Slug(technology)) == Slug(technology)
    ensures Slug(ToLower(technology)) == Slug(technology)
  {
  }

  // ---------------------------------------------------------------------------------------------
  // generateGitignore (src/project-initializer.ts:435-494)

  const GitignoreCommon: string :=
    "# Dependencies\nnode_modules/\n*.log\nnpm-debug.log*\n\n# Build outputs\nbuild/\ndist/\n*.tsbuildinfo\n\n"
    + "# Environment\n.env\n.env.local\n\n# IDE\n.vscode/\n.idea/\n*.swp\n*.swo\n\n# OS\n.DS_Store\nThumbs.db\n"

  const GitignoreTypeScript: string := "\n# TypeScript\n*.js.map\n*.d.ts.map\n"

  const GitignorePython: string :=
    "\n# Python\n__pycache__/\n*.py[cod]\n*$py.class\n*.so\n.Python\nbuild/\ndevelop-eggs/\ndist/\n"
    + "downloads/\neggs/\n.eggs/\nlib/\nlib64/\nparts/\nsdist/\nvar/\nwheels/\n*.egg-info/\n"
    + ".installed.cfg\n*.egg\nMANIFEST\n"

  /** The per-technology addition, looked up by lower-cased name; "" for any other technology. */
  function GitignoreExtra(technology: string): string {
    var key := ToLower(technology);
    if key == "typescript" then GitignoreTypeScript
    else if key == "python" then GitignorePython
    else ""
  }

  /** The common block, followed by the addition for a known technology. */
  function Gitignore(technology: string): (r: string)
    ensures |r| >= |GitignoreCommon| && r[..|GitignoreCommon|] == GitignoreCommon
    ensures r == GitignoreCommon <==> ToLower(technology) != "typescript" && ToLower(technology) != "python"
  {
    assert |GitignoreTypeScript| > 0 && |GitignorePython| > 0;
    GitignoreCommon + GitignoreExtra(technology)
  }

  /** The choice of addition ignores case. */
  lemma GitignoreIgnoresCase(technology: string)
    ensures Gitignore(technology) == Gitignore(ToLower(technology))
  {
    ToLowerIdempotent(technology);
  }

  // ---------------------------------------------------------------------------------------------
  // generateFilenameFromUrl (src/project-initializer.ts:424-433), over the URL's pathname

  /** `parts.filter(Boolean)`: the non-empty pieces, in order. */
  function NonEmptyPieces(parts: seq<string>): (r: seq<string>)
    ensures forall p :: p in r ==> p != [] && p in parts
    decreases |parts|
  {
    if parts == [] then []
    else
      var last := parts[|parts| - 1];
      NonEmptyPieces(parts[..|parts| - 1]) + (if last == [] then [] else [last])
  }

  /** The name a downloaded document is stored under, before the extension rule. */
  function BaseName(pathname: string): (r: string)
    ensures r != [] && '/' !in r
  {
    var segments := NonEmptyPieces(Split(pathname, '/'));
    if segments == [] then "documentation"
    else
      SplitJoin(pathname, '/');
      assert segments[|segments| - 1] in segments;
      segments[|segments| - 1]
  }

  /** The file name for a documentation URL: the last non-empty path segment, or "documentation",
      with ".txt" appended when it has no dot; "documentation.txt" when the URL does not parse
      (`None`). */
  function FilenameFromUrl(pathname: Option<string>): (r: string)
    ensures r != [] && '/' !in r && '.' in r
    ensures pathname.None? ==> r == "documentation.txt"
    ensures pathname.Some? ==> r == BaseName(pathname.value) || r == BaseName(pathname.value) + ".txt"
    ensures pathname.Some? ==> (r == BaseName(pathname.value) <==> '.' in BaseName(pathname.value))
  {
    if pathname.None? then "documentation.txt"
    else
      var name := BaseName(pathname.value);
      if '.' in name then name
      else
        assert (name + ".txt")[|name|] == '.';
        name + ".txt"
  }

  /** Filtering a list with one more piece filters that piece on its own. */
  lemma NonEmptyPiecesSnoc(parts: seq<string>, p: string)
    ensures NonEmptyPieces(parts + [p]) == NonEmptyPieces(parts) + (if p == [] then [] else [p])
  {
    assert (parts + [p])[..|parts|] == parts;
  }

  /** The name `BaseName` is meant to find: what follows the last "/" once trailing slashes are
      removed, or "documentation" when nothing does. */
  function LastSegment(pathname: string): string {
    var n := AfterLast(StripTrailing(pathname, '/'), '/');
    if n == [] then "documentation" else n
  }

  /** The last non-empty segment of the split is that name. */
  lemma {:induction false} BaseNameIsLastSegment(pathname: string)
    ensures BaseName(pathname) == LastSegment(pathname)
    decreases |pathname|
  {
    if pathname != [] {
      var init := pathname[..|pathname| - 1];
      var c := pathname[|pathname| - 1];
      assert pathname == init + [c];
      SplitSnoc(init, c, '/');
      var parts := Split(init, '/');
      if c == '/' {
        BaseNameIsLastSegment(init);
        NonEmptyPiecesSnoc(parts, []);
        assert StripTrailing(pathname, '/') == StripTrailing(init, '/');
      } else {
        LastPieceIsAfterLast(init, '/');
        var piece := parts[|parts| - 1] + [c];
        NonEmptyPiecesSnoc(parts[..|parts| - 1], piece);
        AfterLastSnoc(init, c, '/');
        assert StripTrailing(pathname, '/') == pathname;
      }
    }
  }

  // ---------------------------------------------------------------------------------------------
  // downloadEssentialMCPDocumentation (src/project-initializer.ts:354-390)

  /** A document fetched for every project, and where it is stored. */
  datatype EssentialDoc = EssentialDoc(url: string, filename: string)

  /** The compatibility reference, followed by the SDK readme of the chosen technology when it is
      exactly "typescript" or "python". */
  function EssentialDocs(technology: string): (r: seq<EssentialDoc>)
    ensures 1 <= |r| <= 2 && r[0] == EssentialDoc(LlmsFullUrl, "llms-full.txt")
    ensures |r| == 2 <==> technology == "typescript" || technology == "python"
    ensures |r| == 2 ==> r[1].filename == technology + "-sdk-README.md"
  {
    var docs := [EssentialDoc(LlmsFullUrl, "llms-full.txt")];
    if technology == "typescript" || technology == "python" then
      // "typescript-sdk-README.md" and "python-sdk-README.md", from the matching repository
      docs + [EssentialDoc("https://raw.githubusercontent.com/modelcontextprotocol/" + technology + "-sdk/refs/heads/main/README.md",
                           technology + "-sdk-README.md")]
    else docs
  }

  /** The file names of the essential documents whose download succeeds; a failed download is
      skipped without affecting the others. */
  function FetchedEssentials(docs: seq<EssentialDoc>, reachable: set<string>): (r: seq<string>)
    ensures |r| <= |docs|
    decreases |docs|
  {
    if docs == [] then []
    else
      var d := docs[|docs| - 1];
      FetchedEssentials(docs[..|docs| - 1], reachable) + (if d.url in reachable then [d.filename] else [])
  }

  /** A file name is stored exactly when some essential document with that name was reachable. */
  lemma {:induction false} FetchedEssentialsExact(docs: seq<EssentialDoc>, reachable: set<string>, f: string)
    ensures f in FetchedEssentials(docs, reachable) <==> exists d :: d in docs && d.url in reachable && d.filename == f
    decreases |docs|
  {
    if docs != [] {
      var init := docs[..|docs| - 1];
      var d := docs[|docs| - 1];
      FetchedEssentialsExact(init, reachable, f);
      assert docs == init + [d];
      if exists e :: e in docs && e.url in reachable && e.filename == f {
        var e :| e in docs && e.url in reachable && e.filename == f;
        if e != d {
          assert e in init;
        }
      }
    }
  }

  /** The download loop of downloadEssentialMCPDocumentation (src/project-initializer.ts:379-389): each
      document is tried in turn, and the name of every one that downloads is recorded. */
  method DownloadEssentials(docs: seq<EssentialDoc>, reachable: set<string>) returns (written: seq<string>)
    ensures written == FetchedEssentials(docs, reachable)
  {
    written := [];
    var i := 0;
    while i < |docs|
      invariant 0 <= i <= |docs|
      invariant written == FetchedEssentials(docs[..i], reachable)
    {
      assert docs[..i + 1][..i] == docs[..i];
      if docs[i].url in reachable {
        written := written + [docs[i].filename];
      }
      i := i + 1;
    }
    assert docs[..|docs|] == docs;
  }

  /** The name a user documentation URL is stored under: derived from its pathname when the URL parses
      (`pathnames` holds the pathname of each URL that parses). */
  function UserDocName(url: string, pathnames: map<string, string>): string {
    FilenameFromUrl(if url in pathnames then Some(pathnames[url]) else None)
  }

  /** The file names of the caller's documentation URLs that download, each under its own name. */
  function FetchedUserDocs(urls: seq<string>, reachable: set<string>, pathnames: map<string, string>): (r: seq<string>)
    ensures |r| <= |urls|
    ensures forall f :: f in r ==> f != [] && '/' !in f
    decreases |urls|
  {
    if urls == [] then []
    else
      var u := urls[|urls| - 1];
      FetchedUserDocs(urls[..|urls| - 1], reachable, pathnames) + (if u in reachable then [UserDocName(u, pathnames)] else [])
  }

  /** The loop over the caller's URLs in gatherExternalDocumentation (src/project-initializer.ts:342-351):
      a failed download is skipped and the loop goes on. */
  method GatherExternal(urls: seq<string>, reachable: set<string>, pathnames: map<string, string>)
    returns (written: seq<string>)
    ensures written == FetchedUserDocs(urls, reachable, pathnames)
  {
    written := [];
    var i := 0;
    while i < |urls|
      invariant 0 <= i <= |urls|
      invariant written == FetchedUserDocs(urls[..i], reachable, pathnames)
    {
      assert urls[..i + 1][..i] == urls[..i];
      if urls[i] in reachable {
        written := written + [UserDocName(urls[i], pathnames)];
      }
      i := i + 1;
    }
    assert urls[..|urls|] == urls;
  }

  /** A file name is stored exactly when some reachable URL derives that name from its own pathname. */
  lemma {:induction false} FetchedUserDocsExact(urls: seq<string>, reachable: set<string>, pathnames: map<string, string>, f: string)
    ensures f in FetchedUserDocs(urls, reachable, pathnames) <==>
              exists i :: 0 <= i < |urls| && urls[i] in reachable && f == UserDocName(urls[i], pathnames)
    decreases |urls|
  {
    if urls != [] {
      var n := |urls| - 1;
      var init := urls[..n];
      FetchedUserDocsExact(init, reachable, pathnames, f);
      if f in FetchedUserDocs(init, reachable, pathnames) {
        var i :| 0 <= i < n && init[i] in reachable && f == UserDocName(init[i], pathnames);
        assert urls[i] == init[i];
      }
      if exists i :: 0 <= i < |urls| && urls[i] in reachable && f == UserDocName(urls[i], pathnames) {
        var i :| 0 <= i < |urls| && urls[i] in reachable && f == UserDocName(urls[i], pathnames);
        if i < n {
          assert init[i] == urls[i];
        }
      }
    }
  }

  /** Only reachable URLs produce a file: one file per reachable URL. */
  lemma {:induction false} FetchedUserDocsCount(urls: seq<string>, reachable: set<string>, pathnames: map<string, string>)
    ensures |FetchedUserDocs(urls, reachable, pathnames)| == |set i | 0 <= i < |urls| && urls[i] in reachable|
    decreases |urls|
  {
    if urls != [] {
      var n := |urls| - 1;
      FetchedUserDocsCount(urls[..n], reachable, pathnames);
      ReachableIndicesSnoc(urls, reachable);
      assert |FetchedUserDocs(urls, reachable, pathnames)|
          == |FetchedUserDocs(urls[..n], reachable, pathnames)| + (if urls[n] in reachable then 1 else 0);
    }
  }

  /** The reachable positions of a list, counted one more element at a time. */
  lemma ReachableIndicesSnoc(urls: seq<string>, reachable: set<string>)
    requires urls != []
    ensures var n := |urls| - 1;
            |set i | 0 <= i < |urls| && urls[i] in reachable|
            == |set i | 0 <= i < n && urls[..n][i] in reachable| + (if urls[n] in reachable then 1 else 0)
  {
    var n := |urls| - 1;
    var before := set i | 0 <= i < n && urls[..n][i] in reachable;
    var now := set i | 0 <= i < |urls| && urls[i] in reachable;
    assert before == set i | 0 <= i < n && urls[i] in reachable;
    assert n !in before;
    if urls[n] in reachable {
      assert now == before + {n};
    } else {
      assert now == before;
    }
  }

  // ---------------------------------------------------------------------------------------------
  // The PRD variables (src/project-initializer.ts:876-904)

  const ContextLabel: string := "**Additional Context**: "

  /** The "Additional Context" paragraph: empty unless the custom context is a non-empty string. */
  function AdditionalContext(customContext: Option<string>): (r: string)
    ensures r == [] <==> !Truthy(customContext)
    ensures r != [] ==> |r| == |ContextLabel| + |customContext.value| + 2
                        && r[..|ContextLabel|] == ContextLabel
                        && r[|ContextLabel|..|r| - 2] == customContext.value
                        && r[|r| - 2..] == "\n\n"
  {
    if Truthy(customContext) then ContextLabel + customContext.value + "\n\n" else ""
  }

  const ExternalDocsHeader: string := "## External Documentation References\n\n"

  /** One line per URL, `- url`, in the given order. Defined from the last URL, as the loop builds it. */
  function Bullets(urls: seq<string>): string
    decreases |urls|
  {
    if urls == [] then "" else Bullets(urls[..|urls| - 1]) + "- " + urls[|urls| - 1] + "\n"
  }

  /** The lines a bullet list is made of. */
  function BulletLines(urls: seq<string>): (r: seq<string>)
    ensures |r| == |urls|
  {
    seq(|urls|, i requires 0 <= i < |urls| => "- " + urls[i])
  }

  /** A line without a newline, followed by one, splits into that line and an empty piece. */
  lemma LineThenNewline(line: string)
    requires '\n' !in line
    ensures Split(line + ['\n'], '\n') == [line, []]
  {
    SplitWithout(line, '\n');
    SplitSnoc(line, '\n', '\n');
  }

  /** A bullet line holds no newline when its URL holds none. */
  lemma BulletLineOneLine(u: string)
    requires '\n' !in u
    ensures '\n' !in "- " + u
  {
    var line := "- " + u;
    forall k | 0 <= k < |line| ensures line[k] != '\n' {
      if k >= 2 {
        assert line[k] == u[k - 2];
      }
    }
  }

  /** Appending a newline-terminated line to text that ends in a newline appends that line to what
      the text reads back as. */
  lemma ReadBackAppend(b: string, lines: seq<string>, line: string)
    requires b != [] && b[|b| - 1] == '\n'
    requires Split(b, '\n') == lines + [[]]
    requires '\n' !in line
    ensures Split(b + (line + ['\n']), '\n') == lines + [line, []]
  {
    var front := b[..|b| - 1];
    assert b == front + ['\n'];
    SplitSnoc(front, '\n', '\n');
    var got := Split(front, '\n');
    assert got + [[]] == lines + [[]];
    assert (got + [[]])[..|got|] == got;
    assert (lines + [[]])[..|lines|] == lines;
    LineThenNewline(line);
    SplitAround(front, line + ['\n'], '\n');
    assert front + ['\n'] + (line + ['\n']) == b + (line + ['\n']);
  }

  /** The lines of a longer list are the lines of the shorter one and one more. */
  lemma BulletLinesSnoc(urls: seq<string>)
    requires urls != []
    ensures BulletLines(urls) == BulletLines(urls[..|urls| - 1]) + ["- " + urls[|urls| - 1]]
  {
  }

  /** The bullet list reads back, line by line, as the URLs in order (URLs cannot hold a newline
      here, so each occupies exactly one line), followed by the empty piece after the last newline. */
  lemma {:induction false} BulletsReadBack(urls: seq<string>)
    requires forall u :: u in urls ==> '\n' !in u
    ensures Split(Bullets(urls), '\n') == BulletLines(urls) + [[]]
    decreases |urls|
  {
    if urls != [] {
      var init := urls[..|urls| - 1];
      var u := urls[|urls| - 1];
      assert u in urls;
      forall v | v in init ensures '\n' !in v {
        assert v in urls;
      }
      BulletsReadBack(init);
      var line := "- " + u;
      BulletLineOneLine(u);
      BulletLinesSnoc(urls);
      var b := Bullets(init);
      assert Bullets(urls) == b + (line + ['\n']);
      if init == [] {
        LineThenNewline(line);
        assert Bullets(urls) == line + ['\n'];
      } else {
        ReadBackAppend(b, BulletLines(init), line);
      }
    }
  }

  /** The external documentation section of the PRD: empty unless context is requested and the
      URL list is non-empty; otherwise the header, one bullet per URL and a closing blank line. */
  function ExternalDocsSection(includeContext: bool, urls: Option<seq<string>>): (r: string)
    ensures r == [] <==> !includeContext || urls.None? || urls.value == []
    ensures r != [] ==> r == ExternalDocsHeader + Bullets(urls.value) + "\n"
  {
    if includeContext && urls.Some? && urls.value != [] then ExternalDocsHeader + Bullets(urls.value) + "\n" else ""
  }

  /** The section built by accumulating one bullet per URL, as the loop of
      src/project-initializer.ts:888-895 does. */
  method BuildExternalDocsSection(includeContext: bool, urls: Option<seq<string>>) returns (section: string)
    ensures section == ExternalDocsSection(includeContext, urls)
  {
    section := "";
    if includeContext && urls.Some? && urls.value != [] {
      var list := urls.value;
      section := ExternalDocsHeader;
      var i := 0;
      while i < |list|
        invariant 0 <= i <= |list|
        invariant section == ExternalDocsHeader + Bullets(list[..i])
      {
        assert list[..i + 1][..i] == list[..i];
        section := section + "- " + list[i] + "\n";
        i := i + 1;
      }
      assert list[..|list|] == list;
      section := section + "\n";
    }
  }

  /** The variables of PRD.md, in the order the source lists them. */
  function PrdVariables(project: ProjectConfig): (r: seq<(string, string)>)
    ensures |r| == 5
    ensures r[3] == ("additionalContext", AdditionalContext(project.customContext))
    ensures r[4] == ("externalDocumentationSection", ExternalDocsSection(true, project.documentationUrls))
  {
    [("projectName", project.name), ("technology", project.technology), ("description", project.description),
     ("additionalContext", AdditionalContext(project.customContext)),
     ("externalDocumentationSection", ExternalDocsSection(true, project.documentationUrls))]
  }

  // ---------------------------------------------------------------------------------------------
  // The other rendered documents (src/project-initializer.ts:496-522, 906-937)

  /** `value || fallback`. */
  function OrElse(value: string, fallback: string): string
  {
    if value == [] then fallback else value
  }

  function ReadmeVariables(project: ProjectConfig): seq<(string, string)> {
    [("projectName", OrElse(project.name, "Project")), ("description", OrElse(project.description, "AI-powered project"))]
  }

  /** CLAUDE.md: rendered with the title of the technology template; the protocol-specific title also
      needs mcp-specific-content.md, whose text fills `{{mcpSpecificContent}}`. */
  function ClaudeDocument(assets: map<string, string>, project: ProjectConfig, title: string): (r: Result<string, TemplateError>)
    ensures r.Err? <==> "CLAUDE.md" !in assets || (title == McpLabel && "mcp-specific-content.md" !in assets)
    ensures r.Err? && title == McpLabel && "mcp-specific-content.md" !in assets ==> r.error == TemplateNotFound("mcp-specific-content.md")
  {
    var extra := if title == McpLabel then Render(assets, "mcp-specific-content.md", []) else Ok("");
    match extra
    case Err(e) => Err(e)
    case Ok(text) =>
      Render(assets, "CLAUDE.md",
        [("description", OrElse(project.description, "AI-powered project")), ("technology", title),
         ("technologySlug", Slug(title)), ("mcpSpecificContent", text)])
  }

  /** The instructions document of a technology, when it has one. */
  function InstructionsAsset(technology: string): (r: Option<string>)
    ensures r.Some? <==> technology == "typescript" || technology == "python"
    ensures r.Some? ==> r.value == technology + "-instructions.md"
  {
    if technology == "typescript" then Some("typescript-instructions.md")
    else if technology == "python" then Some("python-instructions.md")
    else None
  }

  /** Technology instructions: a missing instructions document is tolerated and gives "". */
  function TechnologyInstructions(assets: map<string, string>, project: ProjectConfig): (r: string)
    ensures InstructionsAsset(project.technology).None? ==> r == []
    ensures InstructionsAsset(project.technology).Some? && InstructionsAsset(project.technology).value !in assets ==> r == []
  {
    match InstructionsAsset(project.technology)
    case None => ""
    case Some(name) =>
      match Render(assets, name, [("projectName", project.name)])
      case Ok(text) => text
      case Err(_) => ""
  }

  /** IMPLEMENTATION.md: fails only when its own template is missing. */
  function ImplementationDocument(assets: map<string, string>, project: ProjectConfig): (r: Result<string, TemplateError>)
    ensures r.Err? <==> "IMPLEMENTATION.md" !in assets
  {
    Render(assets, "IMPLEMENTATION.md",
      [("projectName", project.name), ("technology", project.technology), ("technologySlug", Slug(project.technology)),
       ("description", project.description), ("technologySpecificInstructions", TechnologyInstructions(assets, project))])
  }

  // ---------------------------------------------------------------------------------------------
  // createWindsurfRules and generateTechnologyRules (src/project-initializer.ts:524-600, 952-977)

  const McpRulesStub: string := "# MCP Development Rules\n\nSee mcp.md for detailed MCP-specific rules.\n"

  /** The technology rules: the bundled `templates/rules/<lower-cased title>.md` when present,
      otherwise a stub for the protocol-specific title, otherwise none. */
  function TechnologyRules(title: string, ruleAssets: map<string, string>): (r: Option<string>)
    ensures ToLower(title) + ".md" in ruleAssets ==> r == Some(ruleAssets[ToLower(title) + ".md"])
    ensures ToLower(title) + ".md" !in ruleAssets ==>
              (r.Some? <==> ToLower(title) == "mcp (model context protocol)")
  {
    var asset := ToLower(title) + ".md";
    if asset in ruleAssets then Some(ruleAssets[asset])
    else if ToLower(title) == "mcp (model context protocol)" then Some(McpRulesStub)
    else None
  }

  /** The files written under `.windsurf/rules/`: general.md always, mcp.md for the protocol-specific
      title, and `<slug>.md` when technology rules exist and are not empty. */
  function RulesFiles(title: string, ruleAssets: map<string, string>): (r: seq<string>)
    ensures |r| >= 1 && r[0] == "general.md"
    ensures var tech := TechnologyRules(title, ruleAssets);
            var written := tech.Some? && tech.value != [];
            && |r| == 1 + (if title == McpLabel then 1 else 0) + (if written then 1 else 0)
            && (title == McpLabel ==> r[1] == "mcp.md")
            && (written ==> r[|r| - 1] == Slug(title) + ".md")
  {
    var tech := TechnologyRules(title, ruleAssets);
    ["general.md"] + (if title == McpLabel then ["mcp.md"] else [])
      + (if tech.Some? && tech.value != [] then [Slug(title) + ".md"] else [])
  }

  // ---------------------------------------------------------------------------------------------
  // The configuration files of generateMCPServer (src/project-initializer.ts:705-722)

  /** package.json and tsconfig.json for "typescript"; requirements.txt and pyproject.toml otherwise. */
  function ConfigFiles(technology: string): (r: seq<string>)
    ensures |r| == 2
    ensures "package.json" in r <==> technology == "typescript"
    ensures "tsconfig.json" in r <==> technology == "typescript"
    ensures "requirements.txt" in r <==> technology != "typescript"
    ensures "pyproject.toml" in r <==> technology != "typescript"
  {
    if technology == "typescript" then ["package.json", "tsconfig.json"] else ["requirements.txt", "pyproject.toml"]
  }

  // ---------------------------------------------------------------------------------------------
  // Paths

  /** `path.join(path.resolve(directory), name)` for an absolute directory already in normal form. */
  function ProjectRoot(directory: string, name: string): (r: string)
    ensures Arguments.IsAbsolute(directory) ==> Arguments.IsAbsolute(r)
    ensures |r| > |name| && r[|r| - |name|..] == name && r[|r| - |name| - 1] == '/'
    ensures r[..|r| - |name| - 1] == StripTrailing(directory, '/')
  {
    StripTrailing(directory, '/') + "/" + name
  }

  /** A base directory written with a trailing slash resolves to the same project directory. */
  lemma ProjectRootTrailingSlash(directory: string, name: string)
    ensures ProjectRoot(directory + "/", name) == ProjectRoot(directory, name)
  {
    assert (directory + "/")[..|directory|] == directory;
  }

  /** Every name of `names`, placed under the directory `dir`. */
  function Under(dir: string, names: seq<string>): seq<string>
  {
    seq(|names|, i requires 0 <= i < |names| => dir + names[i])
  }
}
