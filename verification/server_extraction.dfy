/**
  Operation extraction of the server generator (cmd/mcp-rest-server-gen):
  `OperationInfo`, `processOperation`, and the loop of `generateMCPServer`
  that walks every path item's seven method slots into a table keyed by
  operation id.
 */
module ServerExtraction {
  import opened Wrappers
  import opened Text
  import opened OpenApi

  /** The normalised record kept for one operation (`OperationInfo`). */
  datatype OperationInfo = OperationInfo(
    id: string,
    summary: string,
    description: string,
    parameterType: string,
    hasRequestBody: bool)

  /** `map[string]OperationInfo`, keyed by operation id. */
  type OperationTable = map<string, OperationInfo>

  const ParamsSuffix: string := "Params"
  const BodySuffix: string := "JSONRequestBody"

  /**
    The name of the client binding's argument type for an operation:
    `<id>JSONRequestBody` in body mode, `<id>Params` otherwise.
   */
  function ParameterTypeName(id: string, hasRequestBody: bool): string {
    if hasRequestBody then id + BodySuffix else id + ParamsSuffix
  }

  /** Reads an argument type name back into the operation id and the mode it encodes. */
  function ParseParameterTypeName(name: string): Option<(string, bool)> {
    if EndsWith(name, BodySuffix) then Some((name[..|name| - |BodySuffix|], true))
    else if EndsWith(name, ParamsSuffix) then Some((name[..|name| - |ParamsSuffix|], false))
    else None
  }

  /** The argument type name determines both the operation id and whether a body is sent. */
  lemma ParameterTypeNameRoundTrip(id: string, hasRequestBody: bool)
    ensures ParseParameterTypeName(ParameterTypeName(id, hasRequestBody)) == Some((id, hasRequestBody))
  {
    var name := ParameterTypeName(id, hasRequestBody);
    if hasRequestBody {
      assert name[..|name| - |BodySuffix|] == id;
    } else {
      assert name[|name| - 1] == 's';
      assert !EndsWith(name, BodySuffix);
      assert name[..|name| - |ParamsSuffix|] == id;
    }
  }

  /** Distinct operations never share an argument type name. */
  lemma ParameterTypeNamesDistinct(a: string, aBody: bool, b: string, bBody: bool)
    requires a != b
    ensures ParameterTypeName(a, aBody) != ParameterTypeName(b, bBody)
  {
    ParameterTypeNameRoundTrip(a, aBody);
    ParameterTypeNameRoundTrip(b, bBody);
  }

  /** Whether an operation carries a resolved request body. */
  predicate HasRequestBody(op: Operation) {
    op.requestBody.Some? && op.requestBody.value.value.Some?
  }

  /** The invariant every record built by extraction satisfies. */
  predicate WellFormedInfo(info: OperationInfo) {
    && info.id != ""
    && info.parameterType == ParameterTypeName(info.id, info.hasRequestBody)
    && info.summary != ""
    && info.description != ""
  }

  /** Every entry is stored under its own id and is well formed. */
  predicate WellFormedTable(table: OperationTable) {
    forall k :: k in table ==> table[k].id == k && WellFormedInfo(table[k])
  }

  /** The record `processOperation` builds for an operation found under `method path`. */
  function NewOperationInfo(path: string, httpMethod: string, op: Operation): (info: OperationInfo)
    ensures info.id == op.operationId
    ensures info.hasRequestBody <==> op.requestBody.Some? && op.requestBody.value.value.Some?
    ensures info.parameterType == (if info.hasRequestBody then op.operationId + "JSONRequestBody"
                                   else op.operationId + "Params")
    ensures op.summary != "" ==> info.summary == op.summary
    ensures op.summary == "" ==> info.summary == httpMethod + " " + path
    ensures op.description != "" ==> info.description == op.description
    ensures op.description == "" ==> info.description == info.summary
    ensures info.summary != "" && info.description != ""
    ensures op.operationId != "" ==> WellFormedInfo(info)
  {
    var hasBody := HasRequestBody(op);
    var summary := if op.summary == "" then httpMethod + " " + path else op.summary;
    var description := if op.description == "" then summary else op.description;
    OperationInfo(op.operationId, summary, description, ParameterTypeName(op.operationId, hasBody), hasBody)
  }

  /**
    `processOperation`: a nil operation or one without an id is skipped;
    otherwise its record is stored under its id, replacing any earlier one.
   */
  function ProcessOperation(table: OperationTable, path: string, httpMethod: string, op: Option<Operation>)
    : (r: OperationTable)
    ensures op.None? || op.value.operationId == "" ==> r == table
    ensures op.Some? && op.value.operationId != "" ==>
              && r.Keys == table.Keys + {op.value.operationId}
              && r[op.value.operationId] == NewOperationInfo(path, httpMethod, op.value)
              && forall k :: k in table && k != op.value.operationId ==> r[k] == table[k]
    ensures WellFormedTable(table) ==> WellFormedTable(r)
  {
    if op.None? || op.value.operationId == "" then table
    else table[op.value.operationId := NewOperationInfo(path, httpMethod, op.value)]
  }

  /** One call of `processOperation`, with its arguments. */
  datatype Candidate = Candidate(path: string, httpMethod: string, operation: Option<Operation>)

  /** Whether a call stores a record. */
  predicate Usable(c: Candidate) {
    c.operation.Some? && c.operation.value.operationId != ""
  }

  /** The ids that a list of calls stores. */
  function UsableIds(cs: seq<Candidate>): set<string>
    decreases |cs|
  {
    if |cs| == 0 then {}
    else
      var c := cs[|cs| - 1];
      UsableIds(cs[..|cs| - 1]) + (if Usable(c) then {c.operation.value.operationId} else {})
  }

  /** An id is stored by a list of calls exactly when one of its usable calls carries it. */
  lemma {:induction false} UsableIdsMember(cs: seq<Candidate>, id: string)
    ensures id in UsableIds(cs) <==>
            exists j :: 0 <= j < |cs| && Usable(cs[j]) && cs[j].operation.value.operationId == id
    decreases |cs|
  {
    if |cs| > 0 {
      var init := cs[..|cs| - 1];
      UsableIdsMember(init, id);
      if exists j :: 0 <= j < |init| && Usable(init[j]) && init[j].operation.value.operationId == id {
        var j :| 0 <= j < |init| && Usable(init[j]) && init[j].operation.value.operationId == id;
        assert cs[j] == init[j];
      }
      if exists j :: 0 <= j < |cs| && Usable(cs[j]) && cs[j].operation.value.operationId == id {
        var j :| 0 <= j < |cs| && Usable(cs[j]) && cs[j].operation.value.operationId == id;
        if j < |init| {
          assert init[j] == cs[j];
        }
      }
    }
  }

  /** The calls made for one path entry, in slot order; none for a nil path item. */
  function PathCandidates(e: PathEntry): (cs: seq<Candidate>)
    ensures e.item.None? ==> cs == []
    ensures e.item.Some? ==>
              && |cs| == SlotCount
              && forall s :: 0 <= s < SlotCount ==> cs[s] == Candidate(e.path, Methods[s], Slot(e.item.value, s))
  {
    match e.item
    case None => []
    case Some(item) =>
      [ Candidate(e.path, "GET", item.get),
        Candidate(e.path, "POST", item.post),
        Candidate(e.path, "PUT", item.put),
        Candidate(e.path, "DELETE", item.delete),
        Candidate(e.path, "PATCH", item.patch),
        Candidate(e.path, "HEAD", item.head),
        Candidate(e.path, "OPTIONS", item.options) ]
  }

  /** The ids a path entry contributes. */
  function PathIds(e: PathEntry): set<string> {
    UsableIds(PathCandidates(e))
  }

  /** The non-empty operation ids over every slot of every non-nil path item. */
  function DocumentIds(paths: seq<PathEntry>): set<string>
    decreases |paths|
  {
    if |paths| == 0 then {} else DocumentIds(paths[..|paths| - 1]) + PathIds(paths[|paths| - 1])
  }

  /** An id in the document comes from some path entry. */
  lemma {:induction false} DocumentIdsWitness(paths: seq<PathEntry>, id: string) returns (i: int)
    requires id in DocumentIds(paths)
    ensures 0 <= i < |paths| && id in PathIds(paths[i])
    decreases |paths|
  {
    var init := paths[..|paths| - 1];
    if id in PathIds(paths[|paths| - 1]) {
      i := |paths| - 1;
    } else {
      i := DocumentIdsWitness(init, id);
      assert paths[i] == init[i];
    }
  }

  /** Every id a path entry contributes is in the document. */
  lemma {:induction false} DocumentIdsContains(paths: seq<PathEntry>, i: int, id: string)
    requires 0 <= i < |paths| && id in PathIds(paths[i])
    ensures id in DocumentIds(paths)
    decreases |paths|
  {
    var init := paths[..|paths| - 1];
    if i < |paths| - 1 {
      assert init[i] == paths[i];
      DocumentIdsContains(init, i, id);
    }
  }

  /** A sequence of `processOperation` calls applied left to right. */
  function Apply(table: OperationTable, cs: seq<Candidate>): OperationTable
    decreases |cs|
  {
    if |cs| == 0 then table
    else
      var c := cs[|cs| - 1];
      ProcessOperation(Apply(table, cs[..|cs| - 1]), c.path, c.httpMethod, c.operation)
  }

  /**
    The body of the path loop: `processOperation` on the seven slots in the
    order GET, POST, PUT, DELETE, PATCH, HEAD, OPTIONS, or `continue` on a nil
    path item.
   */
  function ProcessPath(table: OperationTable, e: PathEntry): OperationTable {
    Apply(table, PathCandidates(e))
  }

  /** The calls store exactly the ids of the usable ones, on top of what was there. */
  lemma {:induction false} ApplyKeys(table: OperationTable, cs: seq<Candidate>)
    ensures Apply(table, cs).Keys == table.Keys + UsableIds(cs)
    decreases |cs|
  {
    if |cs| > 0 {
      ApplyKeys(table, cs[..|cs| - 1]);
    }
  }

  /** Calls that never name `id` leave its entry alone. */
  lemma {:induction false} ApplyUntouched(table: OperationTable, cs: seq<Candidate>, id: string)
    requires id !in UsableIds(cs)
    ensures id in Apply(table, cs) <==> id in table
    ensures id in table ==> Apply(table, cs)[id] == table[id]
    decreases |cs|
  {
    if |cs| > 0 {
      ApplyUntouched(table, cs[..|cs| - 1], id);
    }
  }

  /** Once the calls name `id`, its entry no longer depends on the starting table. */
  lemma {:induction false} ApplyOverwrites(t1: OperationTable, t2: OperationTable, cs: seq<Candidate>, id: string)
    requires id in UsableIds(cs)
    ensures id in Apply(t1, cs) && id in Apply(t2, cs)
    ensures Apply(t1, cs)[id] == Apply(t2, cs)[id]
    decreases |cs|
  {
    var c := cs[|cs| - 1];
    if !(Usable(c) && c.operation.value.operationId == id) {
      ApplyOverwrites(t1, t2, cs[..|cs| - 1], id);
    }
  }

  /** Call `j` is the last one that stores `id`. */
  predicate IsLastWriter(cs: seq<Candidate>, j: int, id: string) {
    && 0 <= j < |cs|
    && Usable(cs[j])
    && cs[j].operation.value.operationId == id
    && forall k :: j < k < |cs| && Usable(cs[k]) ==> cs[k].operation.value.operationId != id
  }

  /** The last call that stores an id decides its entry. */
  lemma {:induction false} ApplyLastWriter(table: OperationTable, cs: seq<Candidate>, j: int, id: string)
    requires IsLastWriter(cs, j, id)
    ensures id in Apply(table, cs)
    ensures Apply(table, cs)[id] == NewOperationInfo(cs[j].path, cs[j].httpMethod, cs[j].operation.value)
    decreases |cs|
  {
    var init := cs[..|cs| - 1];
    if j < |cs| - 1 {
      assert IsLastWriter(init, j, id) by {
        forall k | j < k < |init| && Usable(init[k])
          ensures init[k].operation.value.operationId != id
        {
          assert init[k] == cs[k];
        }
      }
      ApplyLastWriter(table, init, j, id);
    }
  }

  /**
    Within one path item, the last slot in the order GET, POST, PUT, DELETE,
    PATCH, HEAD, OPTIONS that carries an id decides that id's record.
   */
  lemma ProcessPathLaterSlotWins(table: OperationTable, e: PathEntry, s: nat, id: string)
    requires e.item.Some? && s < SlotCount
    requires Slot(e.item.value, s).Some? && Slot(e.item.value, s).value.operationId == id && id != ""
    requires forall s' :: s < s' < SlotCount && Slot(e.item.value, s').Some? ==>
               Slot(e.item.value, s').value.operationId != id
    ensures id in ProcessPath(table, e)
    ensures ProcessPath(table, e)[id] == NewOperationInfo(e.path, Methods[s], Slot(e.item.value, s).value)
  {
    var cs := PathCandidates(e);
    assert IsLastWriter(cs, s, id);
    ApplyLastWriter(table, cs, s, id);
  }

  /** The path loop of `generateMCPServer`, over the paths in the order the map yields them. */
  function Extract(paths: seq<PathEntry>): (table: OperationTable)
    ensures table.Keys == DocumentIds(paths)
    decreases |paths|
  {
    if |paths| == 0 then map[]
    else
      var init := paths[..|paths| - 1];
      var last := paths[|paths| - 1];
      ApplyKeys(Extract(init), PathCandidates(last));
      ProcessPath(Extract(init), last)
  }

  /** Every entry of the extracted table is stored under its own id and is well formed. */
  lemma {:induction false} ExtractWellFormed(paths: seq<PathEntry>)
    ensures WellFormedTable(Extract(paths))
    decreases |paths|
  {
    if |paths| > 0 {
      var init := paths[..|paths| - 1];
      ExtractWellFormed(init);
      ApplyPreservesWellFormed(Extract(init), PathCandidates(paths[|paths| - 1]));
    }
  }

  lemma {:induction false} ApplyPreservesWellFormed(table: OperationTable, cs: seq<Candidate>)
    requires WellFormedTable(table)
    ensures WellFormedTable(Apply(table, cs))
    decreases |cs|
  {
    if |cs| > 0 {
      ApplyPreservesWellFormed(table, cs[..|cs| - 1]);
    }
  }

  lemma ExtractSnoc(paths: seq<PathEntry>)
    requires |paths| > 0
    ensures Extract(paths) == ProcessPath(Extract(paths[..|paths| - 1]), paths[|paths| - 1])
  {
  }

  /**
    Across paths, the last path (in visiting order) whose item carries an id
    decides that id's record; earlier paths do not matter.
   */
  lemma {:induction false} ExtractLastPathWins(paths: seq<PathEntry>, i: int, id: string)
    requires 0 <= i < |paths| && id in PathIds(paths[i])
    requires forall k :: i < k < |paths| ==> id !in PathIds(paths[k])
    ensures id in Extract(paths) && id in ProcessPath(map[], paths[i])
    ensures Extract(paths)[id] == ProcessPath(map[], paths[i])[id]
    decreases |paths|
  {
    ApplyKeys(map[], PathCandidates(paths[i]));
    if i == |paths| - 1 {
      LastPathDecides(paths, id);
    } else {
      NotMentionedInPrefix(paths, i, id);
      ExtractLastPathWins(paths[..|paths| - 1], i, id);
      LastPathKeeps(paths, id);
    }
  }

  /** An id the last path declares gets the record that path alone would give it. */
  lemma LastPathDecides(paths: seq<PathEntry>, id: string)
    requires |paths| > 0 && id in PathIds(paths[|paths| - 1])
    ensures id in Extract(paths) && id in ProcessPath(map[], paths[|paths| - 1])
    ensures Extract(paths)[id] == ProcessPath(map[], paths[|paths| - 1])[id]
  {
    var last := paths[|paths| - 1];
    ExtractSnoc(paths);
    ApplyOverwrites(Extract(paths[..|paths| - 1]), map[], PathCandidates(last), id);
  }

  /** An id the last path does not declare keeps the record the earlier paths gave it. */
  lemma LastPathKeeps(paths: seq<PathEntry>, id: string)
    requires |paths| > 0 && id !in PathIds(paths[|paths| - 1])
    requires id in Extract(paths[..|paths| - 1])
    ensures id in Extract(paths) && Extract(paths)[id] == Extract(paths[..|paths| - 1])[id]
  {
    ExtractSnoc(paths);
    ApplyUntouched(Extract(paths[..|paths| - 1]), PathCandidates(paths[|paths| - 1]), id);
  }

  lemma NotMentionedInPrefix(paths: seq<PathEntry>, i: int, id: string)
    requires 0 <= i < |paths| - 1 && id in PathIds(paths[i])
    requires forall k :: i < k < |paths| ==> id !in PathIds(paths[k])
    ensures var init := paths[..|paths| - 1];
            id in PathIds(init[i]) && forall k :: i < k < |init| ==> id !in PathIds(init[k])
  {
  }

  /** Slot `s` of a path item holds an operation whose id is `id`. */
  predicate SlotHolds(item: PathItem, s: int, id: string) {
    0 <= s < SlotCount && Slot(item, s).Some? && Slot(item, s).value.operationId == id && id != ""
  }

  /** Path `i` of the document has a non-nil item whose slot `s` declares `id`. */
  predicate Declares(paths: seq<PathEntry>, i: int, s: int, id: string) {
    0 <= i < |paths| && paths[i].item.Some? && SlotHolds(paths[i].item.value, s, id)
  }

  lemma PathIdsBySlot(e: PathEntry, id: string)
    ensures id in PathIds(e) <==> e.item.Some? && exists s :: SlotHolds(e.item.value, s, id)
  {
    var cs := PathCandidates(e);
    UsableIdsMember(cs, id);
    if id in PathIds(e) {
      var s :| 0 <= s < |cs| && Usable(cs[s]) && cs[s].operation.value.operationId == id;
      assert SlotHolds(e.item.value, s, id);
    }
    if e.item.Some? && exists s :: SlotHolds(e.item.value, s, id) {
      var s :| SlotHolds(e.item.value, s, id);
      assert Usable(cs[s]) && cs[s].operation.value.operationId == id;
    }
  }

  /**
    An id is a key of the extracted table exactly when some slot of some
    non-nil path item declares it.
   */
  lemma ExtractKeysBySlot(paths: seq<PathEntry>, id: string)
    ensures id in Extract(paths) <==> exists i, s :: Declares(paths, i, s, id)
  {
    if id in Extract(paths) {
      var i := DocumentIdsWitness(paths, id);
      PathIdsBySlot(paths[i], id);
      var s :| SlotHolds(paths[i].item.value, s, id);
      assert Declares(paths, i, s, id);
    }
    if exists i, s :: Declares(paths, i, s, id) {
      var i, s :| Declares(paths, i, s, id);
      PathIdsBySlot(paths[i], id);
      DocumentIdsContains(paths, i, id);
    }
  }

  /**
    The table is non-empty exactly when some slot of some non-nil path item
    declares a non-empty id; otherwise `generateMCPServer` stops with an error.
   */
  lemma ExtractNonEmptyIff(paths: seq<PathEntry>)
    ensures |Extract(paths)| > 0 <==> exists i, s, id :: Declares(paths, i, s, id)
  {
    var table := Extract(paths);
    if |table| > 0 {
      var id :| id in table;
      ExtractKeysBySlot(paths, id);
    }
    if exists i, s, id :: Declares(paths, i, s, id) {
      var i, s, id :| Declares(paths, i, s, id);
      ExtractKeysBySlot(paths, id);
      assert id in table.Keys;
    }
  }
}
