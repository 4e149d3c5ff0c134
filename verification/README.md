# go-mcp-rest generators, modelled in Dafny

go-mcp-rest turns an OpenAPI description of a REST service into a Go
program. That program is an MCP (Model Context Protocol) server. It
offers one tool per REST operation and answers each tool call by calling
the REST service through a typed client. Two command-line generators do
the work:

- `mcp-rest-server-gen` does three things:
  - it reads the OpenAPI document;
  - it extracts an operation table keyed by operation id (`OperationInfo`,
    `processOperation`);
  - it synthesises the server's `main`: a fixed prologue, one
    `RegisterTool` call per table entry, and a fixed epilogue.
- `mcp-rest-client-gen` does four things:
  - it fetches or reads the description;
  - it builds the configuration text for oapi-codegen;
  - it chooses the `-generate` value of the direct oapi-codegen command;
  - it refuses to write empty generator output.

The model has these modules:

- `Wrappers`: `Option` and `Result`.
- `Text`: Go's `strings.HasPrefix`, `HasSuffix`, `Split` and `Join` for a
  one-character separator.
- `OpenApi`: the parts of a parsed document that the generators read. A
  path item has seven method slots, and a request body reference may have
  a nil value.
- `ServerExtraction`: the operation record, `processOperation`, and the
  path loop.
- `ServerSynthesis`: the generated file as a statement list, and
  `generateMCPServer` from the loaded document to that file.
- `AppName`: `extractAppNameFromURL`.
- `ClientGen`: `createConfigContent`, the `-generate` choice,
  `getSpecContent` and the empty-output check.

Go ranges over maps in no fixed order, and the model keeps that freedom
explicit:

- The path map is modelled as a sequence of path entries, in the order
  the range visits them.
- The registration loop takes the visiting order of the table's keys as
  a parameter, and a precondition says it lists every key exactly once.
- Two consequences are proved:
  - any two visiting orders produce bodies that hold the same statements
    the same number of times;
  - two different orders produce two different programs.

The code registers tools in map order and never sorts the table
(`cmd/mcp-rest-server-gen/main.go:224`). `RegistrationOrderVisible` states
what that costs. The code has no check for two operations mapping to the
same generated symbol, and none for missing configuration fields. For a
table built by extraction, `RegisteredSymbolsDistinct` proves that no two
registrations share a tool name, an argument type or a call target, so a
collision check would never fire.

## Model

| member | source | states |
|---|---|---|
| ServerExtraction.NewOperationInfo | cmd/mcp-rest-server-gen/main.go:290-314 | The record keeps the operation's id. It is in body mode exactly when the operation has a request body with a resolved value, and its argument type then ends in `JSONRequestBody`, otherwise in `Params`. A missing summary becomes `"<METHOD> <path>"`, and a missing description becomes the summary. Summary and description are never empty, and the record is well formed whenever the id is non-empty. |
| ServerExtraction.ParameterTypeNameRoundTrip | cmd/mcp-rest-server-gen/main.go:290-296 | The argument type name can be read back into the operation id and the body mode it was built from. |
| ServerExtraction.ParameterTypeNamesDistinct | cmd/mcp-rest-server-gen/main.go:290-296 | Two different operation ids never get the same argument type name, whatever their body modes. |
| ServerExtraction.ProcessOperation | cmd/mcp-rest-server-gen/main.go:285-315 | A nil operation, or one with an empty id, leaves the table unchanged. Otherwise the id becomes a key, its entry is the new record (replacing any earlier one), and every other entry is untouched. A well-formed table stays well formed. |
| ServerExtraction.ProcessPathLaterSlotWins | cmd/mcp-rest-server-gen/main.go:153-160 | Within one path item, the last slot in the order GET, POST, PUT, DELETE, PATCH, HEAD, OPTIONS that declares an id decides that id's entry. |
| ServerExtraction.ApplyLastWriter | cmd/mcp-rest-server-gen/main.go:153-160 | Over any sequence of `processOperation` calls, the last call that stores an id decides that id's entry, whatever the table held before. |
| ServerExtraction.Extract | cmd/mcp-rest-server-gen/main.go:144-161 | The table's keys are exactly the non-empty ids that the non-nil path items contribute. |
| ServerExtraction.ExtractWellFormed | cmd/mcp-rest-server-gen/main.go:144-161 | Every entry of the table is stored under its own id, has a non-empty summary and description, and has the argument type name its id and body mode call for. |
| ServerExtraction.ExtractLastPathWins | cmd/mcp-rest-server-gen/main.go:147-161 | Across paths, the last path in visiting order that declares an id decides the id's entry. That entry is the one the path alone would produce, so earlier paths do not matter. |
| ServerExtraction.ExtractKeysBySlot | cmd/mcp-rest-server-gen/main.go:147-161 | An id is a key of the table if and only if some slot of some non-nil path item declares it. |
| ServerExtraction.ExtractNonEmptyIff | cmd/mcp-rest-server-gen/main.go:163-165 | The table is non-empty if and only if some non-nil path item declares an operation with a non-empty id. |
| ServerSynthesis.Imports | cmd/mcp-rest-server-gen/main.go:172-182 | The generator registers ten import names, and the last one is the client package under its configured name. |
| ServerSynthesis.ImportsFixedPart | cmd/mcp-rest-server-gen/main.go:173-182 | The first nine registered import names are the same for every configuration. Only the last one, the client package, depends on it. |
| ServerSynthesis.ToolRegistrationRoundTrip | cmd/mcp-rest-server-gen/main.go:224-263 | A registration built from a well-formed record is consistent, and reads back as that record's id, description and body mode. Consistent means: the argument type encodes the tool's own id; the call target is `<id>WithResponse`; a body is passed by value and parameters by address; both error texts name the id; success means status 200. |
| ServerSynthesis.MainBodyServesTable | cmd/mcp-rest-server-gen/main.go:185-275 | For any enumeration of the table, the body has the fixed prologue and epilogue and `2·n` statements between them. Those statements alternate: each registration is followed by its panic check. The body registers one tool per entry with no name twice, and each registration is the one built for its entry. |
| ServerSynthesis.RegistrationsInterleaved | cmd/mcp-rest-server-gen/main.go:224-264 | The loop's output alternates registrations and panic checks, one pair per visited key. |
| ServerSynthesis.MainBodyInterleaved | cmd/mcp-rest-server-gen/main.go:230-262 | In a generated body, every registration after the prologue is immediately followed by `if err != nil { panic(err) }`. |
| ServerSynthesis.ToolsOfMainBody | cmd/mcp-rest-server-gen/main.go:223-264 | The registrations of a generated body are those of the loop, one per visited key, in visiting order. |
| ServerSynthesis.RegisteredToolsDecode | cmd/mcp-rest-server-gen/main.go:230-263 | Every registration in a body that serves a well-formed table reads back as the entry it names. |
| ServerSynthesis.RegistrationSymbolsDiffer | cmd/mcp-rest-server-gen/main.go:231-240 | Registrations built for two well-formed records with different ids differ in tool name, argument type and call target. |
| ServerSynthesis.RegisteredSymbolsDistinct | cmd/mcp-rest-server-gen/main.go:231-240 | In a body that serves a well-formed table, no two registrations share a tool name, an argument type or a call target. |
| ServerSynthesis.RegistrationsPermute | cmd/mcp-rest-server-gen/main.go:224-264 | Two visiting orders that hold the same keys give registration lists that are permutations of each other. |
| ServerSynthesis.RegistrationOrderPermutes | cmd/mcp-rest-server-gen/main.go:224 | Any two enumerations of the table give generated bodies with the same statements, each the same number of times. |
| ServerSynthesis.RegistrationOrderVisible | cmd/mcp-rest-server-gen/main.go:224 | Two different enumerations of the same table give two different generated bodies, so the output depends on map iteration order. |
| ServerSynthesis.GenerateServer | cmd/mcp-rest-server-gen/main.go:136-278 | Covers building the file's statement tree, before `f.Save`. A load failure is passed on unchanged. Otherwise building fails, with "no valid operations found in the OpenAPI spec", exactly when no path item declares an operation with an id. A built file has the configured package and the registered import names. Its body serves the extracted table: prologue, one registration and panic check per entry, epilogue. |
| AppName.FirstPieceIsLeadingSegment | cmd/mcp-rest-server-gen/main.go:73-78 | The first non-empty piece of the path split on `/` is the run of characters after the leading slashes. There is none exactly when the path holds only slashes. |
| AppName.ExtractAppName | cmd/mcp-rest-server-gen/main.go:65-82 | A parse failure gives "app". Otherwise the result is the path's first segment after its leading slashes, or "app" for an all-slash or empty path. The name is never empty and never contains `/`. |
| Text.Split | cmd/mcp-rest-server-gen/main.go:73 | `strings.Split` always returns at least one piece, and no piece contains the separator. |
| Text.JoinOfSplit | cmd/mcp-rest-server-gen/main.go:73 | Joining the pieces of a split with the separator gives back the original string. |
| Text.SplitOfJoin | cmd/mcp-rest-server-gen/main.go:73 | Splitting a join of separator-free pieces gives back those pieces. |
| ClientGen.ConfigContent | cmd/mcp-rest-client-gen/main.go:155-185 | The configuration starts with the package line, `output: stdout` and `generate:`, and ends with `strict-server: false`. |
| ClientGen.ConfigContentLines | cmd/mcp-rest-client-gen/main.go:155-185 | For a package name without a line break, the configuration is exactly ten newline-terminated lines, in the order the function appends them. |
| ClientGen.ConfigRoundTrip | cmd/mcp-rest-client-gen/main.go:155-185 | Reading the configuration back gives the package name and the models and client flags it was written from. |
| ClientGen.GenerateMode | cmd/mcp-rest-client-gen/main.go:82-100 | The run fails with "invalid options" exactly when neither generator is wanted. Otherwise the `-generate` value lists the wanted generators, types before client, separated by commas. |
| ClientGen.ModeAgreesWithConfig | cmd/mcp-rest-client-gen/main.go:82-115 | The direct command and the fallback configuration ask oapi-codegen for the same generators. |
| ClientGen.SpecLocationOf | cmd/mcp-rest-client-gen/main.go:134-135 | A path is fetched exactly when it starts with `http://` or `https://`. Anything else is read as a file, and the path is passed on unchanged either way. |
| ClientGen.GetSpecContent | cmd/mcp-rest-client-gen/main.go:133-152 | A file path yields the file read's outcome. For a URL: a transport error becomes "failed to fetch spec from URL: …"; a status other than 200 becomes "received non-OK response: <status>"; otherwise the outcome of reading the body is returned. |
| ClientGen.CheckGeneratedOutput | cmd/mcp-rest-client-gen/main.go:117-121 | Output is accepted, unchanged, exactly when it is non-empty. Empty output is the "empty output" error. |

## Left out

- `loadOpenAPISpec` (server generator, lines 85-134) is left out. Fetching, parsing and validating the document belong to kin-openapi and the network. `GenerateServer` takes the loader's outcome as a `Result` of path entries.
- The server loader decides URL versus file by parsing the URL and checking for an `http`/`https` scheme. The client generator uses a plain prefix test instead. Only the client's prefix test is modelled.
- Both `main` functions are left out. That covers command-line parsing with kong, temporary files, `MkdirAll`, and the output-path default built from `extractAppNameFromURL`, `strings.ToLower` and `filepath.Join`. All of these are I/O or library calls.
- The client generator's subprocesses are left out: the `oapi-codegen` lookup and `go install`, the version probe, and running the direct command or the `-config` fallback. Their outcome enters the model only as the output bytes passed to `CheckGeneratedOutput`.
- Rendering Go source with jennifer is left out. That includes import aliasing, struct tags, and the text of the handler closure. The generated file is modelled as a statement list, and each registration as a record of the values the handler closure depends on. `context.TODO()` and the `NewToolResponse(NewTextContent(...))` wrapping are the same for every tool and are not represented.
- `url.Parse` is outside the model. `ExtractAppName` receives whether parsing failed and the parsed path.
- ServerSynthesis.GenerateServer: stops at the built statement tree. `f.Save` at line 281 renders the file through gofmt and writes it, and either step can fail. For example, an id such as `list-books` yields an argument type name that is not a Go identifier. So the whole run can fail even when the table is non-empty. The "Found %d operations" message at line 167 is output only and is not modelled.
- `doc.Paths.Find(path)` is modelled as the entry's optional path item. A nil item skips the path, as in the code.
- ClientGen.ConfigContentLines: stated only for package names without a line break. A name containing one would add lines to the configuration, and the configuration would no longer parse back.
- ClientGen.ConfigRoundTrip: stated only for package names without a line break, for the same reason.
- Sorting the operation table before synthesis, and failing on symbol collisions or missing configuration fields, are not modelled because the code does none of them. `RegistrationOrderVisible` states what the missing sort costs, and `RegisteredSymbolsDistinct` shows that collisions cannot arise from an extracted table.
