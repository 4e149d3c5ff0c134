/**
  The pure parts of the client generator (cmd/mcp-rest-client-gen): the
  oapi-codegen configuration text, the `-generate` mode of the direct
  oapi-codegen command, the choice between fetching the description over
  HTTP and reading it from a file, and the refusal to write empty output.
 */
module ClientGen {
  import opened Wrappers
  import opened Text

  newtype byte = b: int | 0 <= b < 256

  /** `createConfigContent`: the oapi-codegen configuration, one setting per line. */
  function ConfigContent(packageName: string, generateTypes: bool, generateClient: bool): (config: string)
    ensures StartsWith(config, "package: " + packageName + "\n" + "output: stdout\n" + "generate:\n")
    ensures EndsWith(config, "  strict-server: false\n")
  {
    "package: " + packageName + "\n"
    + "output: stdout\n"
    + "generate:\n"
    + (if generateTypes then "  models: true\n" else "  models: false\n")
    + (if generateClient then "  client: true\n" else "  client: false\n")
    + "  echo-server: false\n"
    + "  chi-server: false\n"
    + "  fiber-server: false\n"
    + "  gin-server: false\n"
    + "  strict-server: false\n"
  }

  /** The ten lines of the configuration, without their line ends. */
  function ConfigLines(packageName: string, generateTypes: bool, generateClient: bool): seq<string> {
    [ "package: " + packageName,
      "output: stdout",
      "generate:",
      if generateTypes then "  models: true" else "  models: false",
      if generateClient then "  client: true" else "  client: false",
      "  echo-server: false",
      "  chi-server: false",
      "  fiber-server: false",
      "  gin-server: false",
      "  strict-server: false" ]
  }

  /** Lines each followed by a line end. */
  function Terminated(lines: seq<string>): string
    decreases |lines|
  {
    if |lines| == 0 then "" else lines[0] + "\n" + Terminated(lines[1..])
  }

  lemma {:induction false} SplitTerminated(lines: seq<string>)
    requires forall i :: 0 <= i < |lines| ==> '\n' !in lines[i]
    ensures Split(Terminated(lines), '\n') == lines + [""]
    decreases |lines|
  {
    if |lines| > 0 {
      SplitTerminated(lines[1..]);
      SplitAfterPiece(lines[0], '\n', Terminated(lines[1..]));
      assert lines == [lines[0]] + lines[1..];
    }
  }

  lemma {:induction false} TerminatedSnoc(lines: seq<string>, x: string)
    ensures Terminated(lines + [x]) == Terminated(lines) + (x + "\n")
    decreases |lines|
  {
    if |lines| == 0 {
      assert [x][1..] == [];
    } else {
      assert (lines + [x])[1..] == lines[1..] + [x];
      TerminatedSnoc(lines[1..], x);
    }
  }

  lemma TerminatedStep(lines: seq<string>, k: nat)
    requires k < |lines|
    ensures Terminated(lines[..k + 1]) == Terminated(lines[..k]) + (lines[k] + "\n")
  {
    assert lines[..k + 1] == lines[..k] + [lines[k]];
    TerminatedSnoc(lines[..k], lines[k]);
  }

  /** The first five lines, each ended by a line end. */
  lemma ConfigHeadIsTerminated(packageName: string, generateTypes: bool, generateClient: bool)
    ensures Terminated(ConfigLines(packageName, generateTypes, generateClient)[..5]) ==
            "package: " + packageName + "\n"
            + "output: stdout\n"
            + "generate:\n"
            + (if generateTypes then "  models: true\n" else "  models: false\n")
            + (if generateClient then "  client: true\n" else "  client: false\n")
  {
    var l := ConfigLines(packageName, generateTypes, generateClient);
    var c1 := "package: " + packageName + "\n";
    assert l[..0] == [] && l[..1] == [] + [l[0]];
    TerminatedSnoc([], l[0]);
    assert Terminated(l[..1]) == c1;
    var c2 := c1 + "output: stdout\n";
    TerminatedStep(l, 1);
    assert Terminated(l[..2]) == c2;
    var c3 := c2 + "generate:\n";
    TerminatedStep(l, 2);
    assert Terminated(l[..3]) == c3;
    var c4 := c3 + (if generateTypes then "  models: true\n" else "  models: false\n");
    TerminatedStep(l, 3);
    assert Terminated(l[..4]) == c4;
    TerminatedStep(l, 4);
  }

  /** The text built line by line is the ten lines, each ended by a line end. */
  lemma ConfigContentIsTerminated(packageName: string, generateTypes: bool, generateClient: bool)
    ensures ConfigContent(packageName, generateTypes, generateClient) ==
            Terminated(ConfigLines(packageName, generateTypes, generateClient))
  {
    var l := ConfigLines(packageName, generateTypes, generateClient);
    ConfigHeadIsTerminated(packageName, generateTypes, generateClient);
    var c5 := Terminated(l[..5]);
    var c6 := c5 + "  echo-server: false\n";
    TerminatedStep(l, 5);
    assert Terminated(l[..6]) == c6;
    var c7 := c6 + "  chi-server: false\n";
    TerminatedStep(l, 6);
    assert Terminated(l[..7]) == c7;
    var c8 := c7 + "  fiber-server: false\n";
    TerminatedStep(l, 7);
    assert Terminated(l[..8]) == c8;
    var c9 := c8 + "  gin-server: false\n";
    TerminatedStep(l, 8);
    assert Terminated(l[..9]) == c9;
    var c10 := c9 + "  strict-server: false\n";
    TerminatedStep(l, 9);
    assert Terminated(l[..10]) == c10;
    assert l[..10] == l;
  }

  /**
    The configuration is exactly ten lines, each ended by a line end: the
    package, the output target, the `generate:` header, `models` and
    `client` following the two flags, then the five server generators
    switched off in the order echo, chi, fiber, gin, strict.
   */
  lemma ConfigContentLines(packageName: string, generateTypes: bool, generateClient: bool)
    requires '\n' !in packageName
    ensures Split(ConfigContent(packageName, generateTypes, generateClient), '\n') ==
            ConfigLines(packageName, generateTypes, generateClient) + [""]
  {
    ConfigContentIsTerminated(packageName, generateTypes, generateClient);
    ConfigLinesAreSingle(packageName, generateTypes, generateClient);
    SplitTerminated(ConfigLines(packageName, generateTypes, generateClient));
  }

  lemma PackageLineIsSingle(packageName: string)
    requires '\n' !in packageName
    ensures '\n' !in "package: " + packageName
  {
    var line := "package: " + packageName;
    forall k | 0 <= k < |line| ensures line[k] != '\n' {
      if k >= 9 {
        assert line[k] == packageName[k - 9];
      }
    }
  }

  /** No configuration line holds a line end of its own. */
  lemma ConfigLinesAreSingle(packageName: string, generateTypes: bool, generateClient: bool)
    requires '\n' !in packageName
    ensures forall i :: 0 <= i < 10 ==> '\n' !in ConfigLines(packageName, generateTypes, generateClient)[i]
  {
    PackageLineIsSingle(packageName);
    FlagLinesAreSingle(generateTypes, generateClient);
    ServerLinesAreSingle();
  }

  lemma FlagLinesAreSingle(generateTypes: bool, generateClient: bool)
    ensures '\n' !in "output: stdout" && '\n' !in "generate:"
    ensures '\n' !in (if generateTypes then "  models: true" else "  models: false")
    ensures '\n' !in (if generateClient then "  client: true" else "  client: false")
  {
  }

  lemma ServerLinesAreSingle()
    ensures forall i :: 0 <= i < |ServersOff| ==> '\n' !in ServersOff[i]
  {
  }

  /** The settings oapi-codegen reads from a configuration. */
  datatype CodegenOptions = CodegenOptions(packageName: string, models: bool, client: bool)

  const ServersOff: seq<string> :=
    ["  echo-server: false", "  chi-server: false", "  fiber-server: false", "  gin-server: false", "  strict-server: false"]

  /** Reads a configuration in the layout `createConfigContent` writes. */
  function ParseConfig(text: string): Option<CodegenOptions> {
    var lines := Split(text, '\n');
    if && |lines| == 11
       && lines[10] == ""
       && StartsWith(lines[0], "package: ")
       && lines[1] == "output: stdout"
       && lines[2] == "generate:"
       && (lines[3] == "  models: true" || lines[3] == "  models: false")
       && (lines[4] == "  client: true" || lines[4] == "  client: false")
       && lines[5..10] == ServersOff
    then Some(CodegenOptions(lines[0][9..], lines[3] == "  models: true", lines[4] == "  client: true"))
    else None
  }

  /**
    Reading the configuration back gives the package name and the two flags
    it was written from.
   */
  lemma ConfigRoundTrip(packageName: string, generateTypes: bool, generateClient: bool)
    requires '\n' !in packageName
    ensures ParseConfig(ConfigContent(packageName, generateTypes, generateClient)) ==
            Some(CodegenOptions(packageName, generateTypes, generateClient))
  {
    ConfigContentLines(packageName, generateTypes, generateClient);
    var lines := Split(ConfigContent(packageName, generateTypes, generateClient), '\n');
    assert lines[0] == "package: " + packageName;
    assert lines[0][9..] == packageName;
    assert lines[5..10] == ServersOff;
  }

  /** How the three `-generate` values split into generator names. */
  lemma ModeSplits()
    ensures Split("types", ',') == ["types"]
    ensures Split("client", ',') == ["client"]
    ensures Split("types,client", ',') == ["types", "client"]
  {
    SplitWithoutSeparator("types", ',');
    SplitWithoutSeparator("client", ',');
    BothModesSplit();
  }

  lemma BothModesSplit()
    ensures Split("types,client", ',') == ["types", "client"]
  {
    SplitWithoutSeparator("client", ',');
    SplitAfterPiece("types", ',', "client");
    assert "types" + [','] + "client" == "types,client";
  }

  /**
    The `-generate` value of the direct `oapi-codegen -package <name>
    -generate <mode> <spec file>` command: the wanted generators, types
    first; an error when neither is wanted.
   */
  function GenerateMode(generateTypes: bool, generateClient: bool): (r: Result<string, string>)
    ensures r.Failure? <==> !generateTypes && !generateClient
    ensures r.Failure? ==> r.error == "invalid options"
    ensures r.Success? ==>
              Split(r.value, ',') == (if generateTypes then ["types"] else []) + (if generateClient then ["client"] else [])
  {
    ModeSplits();
    if generateClient && generateTypes then Success("types,client")
    else if generateClient then Success("client")
    else if generateTypes then Success("types")
    else Failure("invalid options")
  }

  /**
    The direct command and the fallback configuration ask oapi-codegen for
    the same generators.
   */
  lemma ModeAgreesWithConfig(packageName: string, generateTypes: bool, generateClient: bool)
    requires '\n' !in packageName
    requires generateTypes || generateClient
    ensures ParseConfig(ConfigContent(packageName, generateTypes, generateClient)).Some?
    ensures var mode := GenerateMode(generateTypes, generateClient).value;
            var options := ParseConfig(ConfigContent(packageName, generateTypes, generateClient)).value;
            && (options.models <==> "types" in Split(mode, ','))
            && (options.client <==> "client" in Split(mode, ','))
  {
    ConfigRoundTrip(packageName, generateTypes, generateClient);
  }

  /** Where `getSpecContent` takes the description from. */
  datatype SpecLocation = Remote(url: string) | LocalFile(path: string)

  /** A path starting with "http://" or "https://" is fetched; anything else is a file. */
  function SpecLocationOf(specPath: string): (loc: SpecLocation)
    ensures loc.Remote? <==> StartsWith(specPath, "http://") || StartsWith(specPath, "https://")
    ensures loc == Remote(specPath) || loc == LocalFile(specPath)
  {
    if StartsWith(specPath, "http://") || StartsWith(specPath, "https://") then Remote(specPath)
    else LocalFile(specPath)
  }

  /** What `http.Get` returned: the status line, its code and the outcome of reading the body. */
  datatype HttpResponse = HttpResponse(statusCode: int, status: string, body: Result<seq<byte>, string>)

  /**
    `getSpecContent`, given what the HTTP request and the file read would
    return for the path: a URL is fetched and must answer 200, anything else
    is read from disk.
   */
  function GetSpecContent(specPath: string, fetched: Result<HttpResponse, string>, fileRead: Result<seq<byte>, string>)
    : (r: Result<seq<byte>, string>)
    ensures SpecLocationOf(specPath).LocalFile? ==> r == fileRead
    ensures SpecLocationOf(specPath).Remote? ==>
              && (fetched.Failure? ==> r == Failure("failed to fetch spec from URL: " + fetched.error))
              && (fetched.Success? && fetched.value.statusCode != 200 ==>
                    r == Failure("received non-OK response: " + fetched.value.status))
              && (fetched.Success? && fetched.value.statusCode == 200 ==> r == fetched.value.body)
  {
    match SpecLocationOf(specPath)
    case LocalFile(_) => fileRead
    case Remote(_) =>
      match fetched
      case Failure(e) => Failure("failed to fetch spec from URL: " + e)
      case Success(resp) =>
        if resp.statusCode != 200 then Failure("received non-OK response: " + resp.status)
        else resp.body
  }

  /** oapi-codegen's output is written only when it is non-empty. */
  function CheckGeneratedOutput(output: seq<byte>): (r: Result<seq<byte>, string>)
    ensures r.Success? <==> |output| > 0
    ensures r.Success? ==> r.value == output
    ensures r.Failure? ==> r.error == "empty output"
  {
    if |output| == 0 then Failure("empty output") else Success(output)
  }
}
