/**
  Program synthesis of the server generator (cmd/mcp-rest-server-gen): the
  jennifer statement tree `generateMCPServer` builds for the bridge
  program's `main`, modelled as an abstract `Stmt` list, together with the
  imports and the whole `generateMCPServer` pipeline from the loaded
  document to the program.
 */
module ServerSynthesis {
  import opened Wrappers
  import opened Text
  import opened OpenApi
  import opened ServerExtraction

  /** The generator's configuration fields that reach the generated program. */
  datatype ServerConfig = ServerConfig(
    packageName: string,
    clientPackage: string,
    clientImport: string,
    serverUrl: string,
    usernameEnv: string,
    passwordEnv: string)

  /** One `ImportName(path, alias)` of the generated file. */
  datatype Import = Import(path: string, alias: string)

  /** A `Qual(importPath, name)` reference. */
  datatype QualifiedName = QualifiedName(importPath: string, name: string)

  /** How the handler passes its argument to the REST call: `arguments` or `&arguments`. */
  datatype CallArgument = ByValue | ByAddress

  /**
    One `server.RegisterTool(name, description, handler)` call. The handler
    takes an argument of type `argumentType`, calls `restClient.<callTarget>`
    with `context.TODO()` and the argument, returns
    `fmt.Errorf(callErrorFormat, err)` on a transport error and
    `fmt.Errorf(statusErrorFormat, resp.Status())` when the status code is not
    `expectedStatus`, and otherwise wraps the response body as text content.
   */
  datatype ToolRegistration = ToolRegistration(
    name: string,
    description: string,
    argumentType: QualifiedName,
    callTarget: string,
    argument: CallArgument,
    callErrorFormat: string,
    statusErrorFormat: string,
    expectedStatus: int)

  /** The statements of the generated `main`. */
  datatype Stmt =
    | DeclareCli(hostDefault: string, usernameEnv: string, passwordEnv: string)
    | ParseCli
    | MakeDone
    | NewBasicAuth
    | IfErrFatal
    | NewRestClient(clientImport: string)
    | IfErrPanic
    | NewServer
    | RegisterTool(tool: ToolRegistration)
    | Serve
    | LogInfo(message: string)
    | AwaitDone

  /** The generated file: its package clause, its registered import names and the body of `main`. */
  datatype GoFile = GoFile(packageName: string, imports: seq<Import>, mainBody: seq<Stmt>)

  const McpGolang: string := "github.com/metoro-io/mcp-golang"
  const NoOperationsError: string := "no valid operations found in the OpenAPI spec"
  const SuccessStatus: int := 200

  /** The import names registered (`ImportName`) before the body is built. */
  function Imports(cfg: ServerConfig): (imports: seq<Import>)
    ensures |imports| == 10 && imports[9] == Import(cfg.clientImport, cfg.clientPackage)
  {
    [ Import("context", "context"),
      Import("fmt", "fmt"),
      Import("log", "log"),
      Import("log/slog", "slog"),
      Import("os", "os"),
      Import(McpGolang, "mcp_golang"),
      Import("github.com/metoro-io/mcp-golang/transport/stdio", "stdio"),
      Import("github.com/oapi-codegen/oapi-codegen/v2/pkg/securityprovider", "securityprovider"),
      Import("github.com/alecthomas/kong", "kong"),
      Import(cfg.clientImport, cfg.clientPackage) ]
  }

  /** Only the last registered import name depends on the configuration. */
  lemma ImportsFixedPart(c1: ServerConfig, c2: ServerConfig)
    ensures Imports(c1)[..9] == Imports(c2)[..9]
    ensures c1.clientImport != c2.clientImport ==> Imports(c1) != Imports(c2)
  {
    assert Imports(c1)[9] == Import(c1.clientImport, c1.clientPackage);
  }

  /**
    The statements before the registrations: the `cli` struct with its host
    default and credential variables, `kong.Parse`, the `done` channel, basic
    auth (fatal on error), the REST client (panic on error) and the stdio server.
   */
  function Prologue(cfg: ServerConfig): seq<Stmt> {
    [ DeclareCli(cfg.serverUrl, cfg.usernameEnv, cfg.passwordEnv),
      ParseCli,
      MakeDone,
      NewBasicAuth,
      IfErrFatal,
      NewRestClient(cfg.clientImport),
      IfErrPanic,
      NewServer ]
  }

  /** The statements after the registrations: serve, panic on error, log, wait on `done`. */
  const Epilogue: seq<Stmt> := [Serve, IfErrPanic, LogInfo("Server started"), AwaitDone]

  /** The registration call built for one table entry. */
  function ToolRegistrationFor(cfg: ServerConfig, op: OperationInfo): ToolRegistration {
    ToolRegistration(
      op.id,
      op.description,
      QualifiedName(cfg.clientImport, op.parameterType),
      op.id + "WithResponse",
      if op.hasRequestBody then ByValue else ByAddress,
      "error calling " + op.id + ": %v",
      "error on " + op.id + ": %s",
      SuccessStatus)
  }

  /** What a registration tells about the operation behind it. */
  datatype ToolSignature = ToolSignature(id: string, description: string, hasRequestBody: bool)

  /**
    Reads a registration back: the argument type name must encode the tool's
    own id, the call target and the error texts must name it, a body type must
    be passed by value and a parameter type by address, and success must mean
    status 200.
   */
  function DecodeTool(cfg: ServerConfig, tool: ToolRegistration): Option<ToolSignature> {
    match ParseParameterTypeName(tool.argumentType.name)
    case None => None
    case Some((id, hasBody)) =>
      if && id == tool.name
         && tool.argumentType.importPath == cfg.clientImport
         && tool.callTarget == id + "WithResponse"
         && (tool.argument == ByValue <==> hasBody)
         && tool.callErrorFormat == "error calling " + id + ": %v"
         && tool.statusErrorFormat == "error on " + id + ": %s"
         && tool.expectedStatus == 200
      then Some(ToolSignature(id, tool.description, hasBody))
      else None
  }

  /**
    Every registration built from a well-formed record is consistent and gives
    back the record's id, description and body mode.
   */
  lemma ToolRegistrationRoundTrip(cfg: ServerConfig, op: OperationInfo)
    requires WellFormedInfo(op)
    ensures DecodeTool(cfg, ToolRegistrationFor(cfg, op)) == Some(ToolSignature(op.id, op.description, op.hasRequestBody))
  {
    ParameterTypeNameRoundTrip(op.id, op.hasRequestBody);
  }

  /** The statements emitted for one table entry: the registration and its panic check. */
  function RegistrationBlock(cfg: ServerConfig, op: OperationInfo): seq<Stmt> {
    [RegisterTool(ToolRegistrationFor(cfg, op)), IfErrPanic]
  }

  /** `order` lists every key of the table exactly once, as a range over the map does. */
  predicate IsEnumeration(order: seq<string>, keys: set<string>) {
    && (forall i, j :: 0 <= i < j < |order| ==> order[i] != order[j])
    && (forall i :: 0 <= i < |order| ==> order[i] in keys)
    && (forall k :: k in keys ==> k in order)
  }

  /** Every key visited is a key of the table. */
  predicate Within(order: seq<string>, table: OperationTable) {
    forall i :: 0 <= i < |order| ==> order[i] in table
  }

  /** The registration loop, visiting the table's keys in `order`. */
  function Registrations(cfg: ServerConfig, table: OperationTable, order: seq<string>): (body: seq<Stmt>)
    requires Within(order, table)
    ensures |body| == 2 * |order|
    decreases |order|
  {
    if |order| == 0 then []
    else
      Registrations(cfg, table, order[..|order| - 1]) + RegistrationBlock(cfg, table[order[|order| - 1]])
  }

  /** The body of the generated `main`. */
  function MainBody(cfg: ServerConfig, table: OperationTable, order: seq<string>): seq<Stmt>
    requires Within(order, table)
  {
    Prologue(cfg) + Registrations(cfg, table, order) + Epilogue
  }

  /** The registrations of a statement list, in order. */
  function Tools(body: seq<Stmt>): seq<ToolRegistration>
    decreases |body|
  {
    if |body| == 0 then []
    else
      Tools(body[..|body| - 1]) +
      (if body[|body| - 1].RegisterTool? then [body[|body| - 1].tool] else [])
  }

  lemma {:induction false} ToolsConcat(a: seq<Stmt>, b: seq<Stmt>)
    ensures Tools(a + b) == Tools(a) + Tools(b)
    decreases |b|
  {
    if |b| == 0 {
      assert a + b == a;
    } else {
      assert (a + b)[..|a + b| - 1] == a + b[..|b| - 1];
      assert (a + b)[|a + b| - 1] == b[|b| - 1];
      ToolsConcat(a, b[..|b| - 1]);
    }
  }

  /** The loop registers one tool per visited key, in visiting order. */
  lemma {:induction false} ToolsOfRegistrations(cfg: ServerConfig, table: OperationTable, order: seq<string>)
    requires Within(order, table)
    ensures |Tools(Registrations(cfg, table, order))| == |order|
    ensures forall i :: 0 <= i < |order| ==>
              Tools(Registrations(cfg, table, order))[i] == ToolRegistrationFor(cfg, table[order[i]])
    decreases |order|
  {
    if |order| > 0 {
      var init := order[..|order| - 1];
      ToolsOfRegistrations(cfg, table, init);
      ToolsConcat(Registrations(cfg, table, init), RegistrationBlock(cfg, table[order[|order| - 1]]));
      var block := RegistrationBlock(cfg, table[order[|order| - 1]]);
      assert block[..1][..0] == [];
      assert block[..1] == [block[0]];
      assert Tools(block[..1]) == [block[0].tool];
      assert Tools(block) == [block[0].tool];
    }
  }

  lemma {:induction false} NoTools(body: seq<Stmt>)
    requires forall i :: 0 <= i < |body| ==> !body[i].RegisterTool?
    ensures Tools(body) == []
    decreases |body|
  {
    if |body| > 0 {
      NoTools(body[..|body| - 1]);
    }
  }

  /** The fixed parts register nothing. */
  lemma ToolsOfFixedParts(cfg: ServerConfig)
    ensures Tools(Prologue(cfg)) == [] && Tools(Epilogue) == []
  {
    NoTools(Prologue(cfg));
    NoTools(Epilogue);
  }

  /** The registrations of a generated body are those of its loop, in visiting order. */
  lemma ToolsOfMainBody(cfg: ServerConfig, table: OperationTable, order: seq<string>)
    requires Within(order, table)
    ensures Tools(MainBody(cfg, table, order)) == Tools(Registrations(cfg, table, order))
    ensures |Tools(MainBody(cfg, table, order))| == |order|
    ensures forall i :: 0 <= i < |order| ==>
              Tools(MainBody(cfg, table, order))[i] == ToolRegistrationFor(cfg, table[order[i]])
  {
    var regs := Registrations(cfg, table, order);
    ToolsConcat(Prologue(cfg), regs);
    ToolsConcat(Prologue(cfg) + regs, Epilogue);
    ToolsOfFixedParts(cfg);
    ToolsOfRegistrations(cfg, table, order);
  }

  /** A generated body starts with the prologue and ends with the epilogue. */
  lemma MainBodyFrame(cfg: ServerConfig, table: OperationTable, order: seq<string>)
    requires Within(order, table)
    ensures var body := MainBody(cfg, table, order);
            && |body| == |Prologue(cfg)| + 2 * |order| + |Epilogue|
            && body[..|Prologue(cfg)|] == Prologue(cfg)
            && body[|body| - |Epilogue|..] == Epilogue
  {
    var body := MainBody(cfg, table, order);
    var regs := Registrations(cfg, table, order);
    assert body == Prologue(cfg) + regs + Epilogue;
    assert body[..|Prologue(cfg)|] == Prologue(cfg);
    assert body[|body| - |Epilogue|..] == Epilogue;
  }

  lemma {:induction false} DistinctCard(order: seq<string>)
    requires forall i, j :: 0 <= i < j < |order| ==> order[i] != order[j]
    ensures |set k | k in order| == |order|
    decreases |order|
  {
    if |order| > 0 {
      var init := order[..|order| - 1];
      var x := order[|order| - 1];
      DistinctCard(init);
      assert (set k | k in order) == (set k | k in init) + {x} by {
        assert order == init + [x];
      }
      assert x !in init by {
        forall i | 0 <= i < |init| ensures init[i] != x {
          assert init[i] == order[i];
        }
      }
    }
  }

  /**
    From `start` on, `n` registrations, each followed by its panic check:
    a registration that fails stops the generated server.
   */
  predicate Interleaved(body: seq<Stmt>, start: nat, n: nat)
    requires start + 2 * n <= |body|
  {
    forall j :: start <= j < start + 2 * n ==>
      if (j - start) % 2 == 0 then body[j].RegisterTool? else body[j] == IfErrPanic
  }

  /** The loop emits each registration immediately followed by its panic check. */
  lemma {:induction false} RegistrationsInterleaved(cfg: ServerConfig, table: OperationTable, order: seq<string>)
    requires Within(order, table)
    ensures Interleaved(Registrations(cfg, table, order), 0, |order|)
    decreases |order|
  {
    if |order| > 0 {
      var init := order[..|order| - 1];
      var regs := Registrations(cfg, table, init);
      var block := RegistrationBlock(cfg, table[order[|order| - 1]]);
      RegistrationsInterleaved(cfg, table, init);
      var all := Registrations(cfg, table, order);
      assert all == regs + block;
      forall j | 0 <= j < 2 * |order|
        ensures if j % 2 == 0 then all[j].RegisterTool? else all[j] == IfErrPanic
      {
        if j < |regs| {
          assert all[j] == regs[j];
        } else {
          assert all[j] == block[j - |regs|];
        }
      }
    }
  }

  /** In a generated body, the registrations between prologue and epilogue come with their panic checks. */
  lemma MainBodyInterleaved(cfg: ServerConfig, table: OperationTable, order: seq<string>)
    requires Within(order, table)
    ensures |Prologue(cfg)| + 2 * |order| <= |MainBody(cfg, table, order)|
    ensures Interleaved(MainBody(cfg, table, order), |Prologue(cfg)|, |order|)
  {
    var regs := Registrations(cfg, table, order);
    var body := MainBody(cfg, table, order);
    var p := |Prologue(cfg)|;
    RegistrationsInterleaved(cfg, table, order);
    forall j | p <= j < p + 2 * |order|
      ensures if (j - p) % 2 == 0 then body[j].RegisterTool? else body[j] == IfErrPanic
    {
      assert body[j] == regs[j - p];
    }
  }

  /**
    The shape of a generated `main` for a table: the fixed prologue, one
    registration block per table entry, the fixed epilogue; the registered
    tools are exactly the table's entries, each registered once.
   */
  predicate ServesTable(body: seq<Stmt>, cfg: ServerConfig, table: OperationTable) {
    && |body| == |Prologue(cfg)| + 2 * |table| + |Epilogue|
    && body[..|Prologue(cfg)|] == Prologue(cfg)
    && body[|body| - |Epilogue|..] == Epilogue
    && Interleaved(body, |Prologue(cfg)|, |table|)
    && |Tools(body)| == |table|
    && (forall i, j :: 0 <= i < j < |Tools(body)| ==> Tools(body)[i].name != Tools(body)[j].name)
    && (forall k :: k in table ==> exists i :: 0 <= i < |Tools(body)| && Tools(body)[i].name == k)
    && (forall i :: 0 <= i < |Tools(body)| ==>
          Tools(body)[i].name in table && Tools(body)[i] == ToolRegistrationFor(cfg, table[Tools(body)[i].name]))
  }

  /**
    Whatever order the loop visits the table in, the generated body has the
    fixed prologue and epilogue and registers every entry exactly once.
   */
  lemma MainBodyServesTable(cfg: ServerConfig, table: OperationTable, order: seq<string>)
    requires WellFormedTable(table)
    requires IsEnumeration(order, table.Keys)
    ensures ServesTable(MainBody(cfg, table, order), cfg, table)
  {
    MainBodyFrame(cfg, table, order);
    MainBodyInterleaved(cfg, table, order);
    ToolsOfMainBody(cfg, table, order);
    EnumerationCard(order, table.Keys);
    EnumeratedBodyServesTable(cfg, table, order, MainBody(cfg, table, order));
  }

  /** An enumeration lists as many keys as there are. */
  lemma EnumerationCard(order: seq<string>, keys: set<string>)
    requires IsEnumeration(order, keys)
    ensures |keys| == |order|
  {
    DistinctCard(order);
    assert (set k | k in order) == keys;
  }

  /** The table-level facts, from the body's shape and its tools listed in `order`. */
  lemma EnumeratedBodyServesTable(cfg: ServerConfig, table: OperationTable, order: seq<string>, body: seq<Stmt>)
    requires WellFormedTable(table)
    requires IsEnumeration(order, table.Keys)
    requires |table| == |order|
    requires |body| == |Prologue(cfg)| + 2 * |order| + |Epilogue|
    requires body[..|Prologue(cfg)|] == Prologue(cfg) && body[|body| - |Epilogue|..] == Epilogue
    requires Interleaved(body, |Prologue(cfg)|, |order|)
    requires |Tools(body)| == |order|
    requires forall i :: 0 <= i < |order| ==> Tools(body)[i] == ToolRegistrationFor(cfg, table[order[i]])
    ensures ServesTable(body, cfg, table)
  {
    var tools := Tools(body);
    assert forall i :: 0 <= i < |tools| ==> tools[i].name == order[i];
    forall k | k in table ensures exists i :: 0 <= i < |tools| && tools[i].name == k {
      var i :| 0 <= i < |order| && order[i] == k;
      assert tools[i].name == k;
    }
  }

  /** Every registration in a generated body reads back as the entry it was made for. */
  lemma RegisteredToolsDecode(cfg: ServerConfig, table: OperationTable, body: seq<Stmt>)
    requires WellFormedTable(table)
    requires ServesTable(body, cfg, table)
    ensures forall i :: 0 <= i < |Tools(body)| ==>
              var op := table[Tools(body)[i].name];
              DecodeTool(cfg, Tools(body)[i]) == Some(ToolSignature(op.id, op.description, op.hasRequestBody))
  {
    forall i | 0 <= i < |Tools(body)|
      ensures var op := table[Tools(body)[i].name];
              DecodeTool(cfg, Tools(body)[i]) == Some(ToolSignature(op.id, op.description, op.hasRequestBody))
    {
      ToolRegistrationRoundTrip(cfg, table[Tools(body)[i].name]);
    }
  }

  /**
    No two registrations of a generated body share a tool name, an argument
    type or a call target.
   */
  lemma RegisteredSymbolsDistinct(cfg: ServerConfig, table: OperationTable, body: seq<Stmt>)
    requires WellFormedTable(table)
    requires ServesTable(body, cfg, table)
    ensures forall i, j :: 0 <= i < j < |Tools(body)| ==>
              && Tools(body)[i].name != Tools(body)[j].name
              && Tools(body)[i].argumentType != Tools(body)[j].argumentType
              && Tools(body)[i].callTarget != Tools(body)[j].callTarget
  {
    var tools := Tools(body);
    forall i, j | 0 <= i < j < |tools|
      ensures tools[i].argumentType != tools[j].argumentType && tools[i].callTarget != tools[j].callTarget
    {
      RegistrationSymbolsDiffer(cfg, table[tools[i].name], table[tools[j].name]);
    }
  }

  /** Registrations of two well-formed records with different ids differ in argument type and call target. */
  lemma RegistrationSymbolsDiffer(cfg: ServerConfig, a: OperationInfo, b: OperationInfo)
    requires WellFormedInfo(a) && WellFormedInfo(b) && a.id != b.id
    ensures ToolRegistrationFor(cfg, a).name != ToolRegistrationFor(cfg, b).name
    ensures ToolRegistrationFor(cfg, a).argumentType != ToolRegistrationFor(cfg, b).argumentType
    ensures ToolRegistrationFor(cfg, a).callTarget != ToolRegistrationFor(cfg, b).callTarget
  {
    ParameterTypeNamesDistinct(a.id, a.hasRequestBody, b.id, b.hasRequestBody);
    AppendCancel(a.id, b.id, "WithResponse");
  }

  lemma WithinConcat(a: seq<string>, b: seq<string>, table: OperationTable)
    requires Within(a, table) && Within(b, table)
    ensures Within(a + b, table)
  {
    forall j | 0 <= j < |a + b| ensures (a + b)[j] in table {
      if j < |a| {
        assert (a + b)[j] == a[j];
      } else {
        assert (a + b)[j] == b[j - |a|];
      }
    }
  }

  lemma {:induction false} RegistrationsConcat(cfg: ServerConfig, table: OperationTable, a: seq<string>, b: seq<string>)
    requires Within(a, table) && Within(b, table)
    ensures Within(a + b, table)
    ensures Registrations(cfg, table, a + b) == Registrations(cfg, table, a) + Registrations(cfg, table, b)
    decreases |b|
  {
    WithinConcat(a, b, table);
    if |b| == 0 {
      assert a + b == a;
    } else {
      assert (a + b)[..|a + b| - 1] == a + b[..|b| - 1];
      assert (a + b)[|a + b| - 1] == b[|b| - 1];
      RegistrationsConcat(cfg, table, a, b[..|b| - 1]);
    }
  }

  lemma RemoveAt(o: seq<string>, i: int)
    requires 0 <= i < |o|
    ensures o == o[..i] + [o[i]] + o[i + 1..]
    ensures multiset(o[..i] + o[i + 1..]) == multiset(o) - multiset{o[i]}
  {
    assert o == o[..i] + [o[i]] + o[i + 1..];
    assert multiset(o) == multiset(o[..i]) + multiset{o[i]} + multiset(o[i + 1..]);
  }

  lemma RegistrationsAround(cfg: ServerConfig, table: OperationTable, a: seq<string>, x: string, b: seq<string>)
    requires Within(a, table) && x in table && Within(b, table)
    ensures Within(a + [x] + b, table) && Within(a + b, table)
    ensures multiset(Registrations(cfg, table, a + [x] + b)) ==
            multiset(Registrations(cfg, table, a + b)) + multiset(RegistrationBlock(cfg, table[x]))
  {
    RegistrationsConcat(cfg, table, a, b);
    RegistrationsConcat(cfg, table, a, [x]);
    RegistrationsConcat(cfg, table, a + [x], b);
    assert [x][..0] == [];
    assert Registrations(cfg, table, [x]) == RegistrationBlock(cfg, table[x]);
    assert Registrations(cfg, table, a + [x] + b) ==
           Registrations(cfg, table, a) + RegistrationBlock(cfg, table[x]) + Registrations(cfg, table, b);
  }

  lemma SameMembers(o1: seq<string>, o2: seq<string>, table: OperationTable)
    requires Within(o1, table)
    requires multiset(o1) == multiset(o2)
    ensures Within(o2, table)
  {
    forall j | 0 <= j < |o2| ensures o2[j] in table {
      assert o2[j] in multiset(o1);
      var i :| 0 <= i < |o1| && o1[i] == o2[j];
    }
  }

  lemma WithinRemoved(o: seq<string>, i: int, table: OperationTable)
    requires Within(o, table) && 0 <= i < |o|
    ensures Within(o[..i], table) && Within(o[i + 1..], table) && o[i] in table
  {
    var tail := o[i + 1..];
    forall j | 0 <= j < |tail| ensures tail[j] in table {
      assert tail[j] == o[j + i + 1];
    }
  }

  lemma MatchLast(o1: seq<string>, o2: seq<string>) returns (i: int)
    requires |o1| > 0 && multiset(o1) == multiset(o2)
    ensures 0 <= i < |o2| && o2[i] == o1[|o1| - 1]
    ensures o2 == o2[..i] + [o2[i]] + o2[i + 1..]
    ensures multiset(o1[..|o1| - 1]) == multiset(o2[..i] + o2[i + 1..])
  {
    var x := o1[|o1| - 1];
    RemoveAt(o1, |o1| - 1);
    assert x in multiset(o2);
    i :| 0 <= i < |o2| && o2[i] == x;
    RemoveAt(o2, i);
  }

  /** The last registration block of an order. */
  lemma PeelLast(cfg: ServerConfig, table: OperationTable, o: seq<string>)
    requires Within(o, table) && |o| > 0
    ensures Within(o[..|o| - 1], table) && o[|o| - 1] in table
    ensures multiset(Registrations(cfg, table, o)) ==
            multiset(Registrations(cfg, table, o[..|o| - 1])) + multiset(RegistrationBlock(cfg, table[o[|o| - 1]]))
  {
  }

  /** Takes a key out of the middle of an order. */
  lemma PeelMatch(cfg: ServerConfig, table: OperationTable, o1: seq<string>, o2: seq<string>)
    returns (rest: seq<string>)
    requires Within(o1, table) && |o1| > 0
    requires multiset(o1) == multiset(o2)
    ensures Within(rest, table) && Within(o2, table) && o1[|o1| - 1] in table
    ensures multiset(o1[..|o1| - 1]) == multiset(rest)
    ensures multiset(Registrations(cfg, table, o2)) ==
            multiset(Registrations(cfg, table, rest)) + multiset(RegistrationBlock(cfg, table[o1[|o1| - 1]]))
  {
    SameMembers(o1, o2, table);
    var i := MatchLast(o1, o2);
    var a := o2[..i];
    var b := o2[i + 1..];
    WithinRemoved(o2, i, table);
    RegistrationsAround(cfg, table, a, o2[i], b);
    rest := a + b;
  }

  lemma {:induction false} RegistrationsPermute(cfg: ServerConfig, table: OperationTable, o1: seq<string>, o2: seq<string>)
    requires Within(o1, table)
    requires multiset(o1) == multiset(o2)
    ensures Within(o2, table)
    ensures multiset(Registrations(cfg, table, o1)) == multiset(Registrations(cfg, table, o2))
    decreases |o1|
  {
    if |o1| == 0 {
      assert o2 == [];
    } else {
      PeelLast(cfg, table, o1);
      var rest := PeelMatch(cfg, table, o1, o2);
      RegistrationsPermute(cfg, table, o1[..|o1| - 1], rest);
    }
  }

  lemma {:induction false} DistinctMultiplicity(order: seq<string>, k: string)
    requires forall i, j :: 0 <= i < j < |order| ==> order[i] != order[j]
    ensures multiset(order)[k] == if k in order then 1 else 0
    decreases |order|
  {
    if |order| > 0 {
      var init := order[..|order| - 1];
      assert order == init + [order[|order| - 1]];
      DistinctMultiplicity(init, k);
      assert order[|order| - 1] !in init by {
        forall i | 0 <= i < |init| ensures init[i] != order[|order| - 1] {
          assert init[i] == order[i];
        }
      }
    }
  }

  /**
    Two visiting orders of the same table give bodies that are permutations
    of each other: the same statements, each the same number of times.
   */
  lemma RegistrationOrderPermutes(cfg: ServerConfig, table: OperationTable, o1: seq<string>, o2: seq<string>)
    requires IsEnumeration(o1, table.Keys) && IsEnumeration(o2, table.Keys)
    ensures multiset(MainBody(cfg, table, o1)) == multiset(MainBody(cfg, table, o2))
  {
    forall k ensures multiset(o1)[k] == multiset(o2)[k] {
      DistinctMultiplicity(o1, k);
      DistinctMultiplicity(o2, k);
    }
    assert multiset(o1) == multiset(o2);
    RegistrationsPermute(cfg, table, o1, o2);
  }

  /**
    The body records the visiting order: two different orders give two
    different programs. Go does not fix the order of a range over a map, so
    the generated file can differ between runs on the same input.
   */
  lemma RegistrationOrderVisible(cfg: ServerConfig, table: OperationTable, o1: seq<string>, o2: seq<string>)
    requires WellFormedTable(table)
    requires IsEnumeration(o1, table.Keys) && IsEnumeration(o2, table.Keys)
    requires o1 != o2
    ensures MainBody(cfg, table, o1) != MainBody(cfg, table, o2)
  {
    ToolsOfMainBody(cfg, table, o1);
    ToolsOfMainBody(cfg, table, o2);
    var t1 := Tools(MainBody(cfg, table, o1));
    var t2 := Tools(MainBody(cfg, table, o2));
    assert forall i :: 0 <= i < |o1| ==> t1[i].name == o1[i];
    assert forall i :: 0 <= i < |o2| ==> t2[i].name == o2[i];
    if |o1| == |o2| {
      var i :| 0 <= i < |o1| && o1[i] != o2[i];
      assert t1[i] != t2[i];
    } else {
      assert |t1| != |t2|;
    }
  }

  /**
    `generateMCPServer` from the loaded document to the generated file: a
    load failure is passed on, an empty operation table is an error and
    yields no program, and otherwise the file holds the fixed imports and a
    `main` that registers every extracted operation, in the order the range
    over the table visits its keys.
   */
  function GenerateServer(cfg: ServerConfig, loaded: Result<seq<PathEntry>, string>, order: seq<string>)
    : (r: Result<GoFile, string>)
    requires loaded.Success? ==> IsEnumeration(order, Extract(loaded.value).Keys)
    ensures loaded.Failure? ==> r == Failure(loaded.error)
    ensures loaded.Success? ==>
              (r.Failure? <==> !exists i, s, id :: Declares(loaded.value, i, s, id))
    ensures loaded.Success? && r.Failure? ==> r.error == NoOperationsError
    ensures r.Success? ==>
              && loaded.Success?
              && r.value.packageName == cfg.packageName
              && r.value.imports == Imports(cfg)
              && ServesTable(r.value.mainBody, cfg, Extract(loaded.value))
  {
    match loaded
    case Failure(e) => Failure(e)
    case Success(paths) =>
      var table := Extract(paths);
      ExtractNonEmptyIff(paths);
      ExtractWellFormed(paths);
      if |table| == 0 then Failure(NoOperationsError)
      else
        MainBodyServesTable(cfg, table, order);
        Success(GoFile(cfg.packageName, Imports(cfg), MainBody(cfg, table, order)))
  }
}
