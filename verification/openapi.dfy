/**
  The parsed API description as the server generator sees it: the subset of
  kin-openapi's document (`openapi3.T`) that operation extraction reads.
  Loading, parsing and validating the document happen before this model
  starts; it receives their result.
 */
module OpenApi {
  import opened Wrappers

  /** A request body definition; extraction only asks whether one is present. */
  datatype RequestBody = RequestBody

  /**
    A possibly unresolved reference to a request body: `value` is Go's
    `RequestBodyRef.Value`, which may be nil.
   */
  datatype RequestBodyRef = RequestBodyRef(value: Option<RequestBody>)

  /** One operation definition (`openapi3.Operation`); empty strings stand for absent text. */
  datatype Operation = Operation(
    operationId: string,
    summary: string,
    description: string,
    requestBody: Option<RequestBodyRef>)

  /** The seven method slots of a path item; `None` is a nil `*Operation`. */
  datatype PathItem = PathItem(
    get: Option<Operation>,
    post: Option<Operation>,
    put: Option<Operation>,
    delete: Option<Operation>,
    patch: Option<Operation>,
    head: Option<Operation>,
    options: Option<Operation>)

  /**
    One key of the document's path map with what `Paths.Find` returns for it
    (`None` for a nil path item).
   */
  datatype PathEntry = PathEntry(path: string, item: Option<PathItem>)

  /** The number of method slots a path item has. */
  const SlotCount: nat := 7

  /** The HTTP method names, in the order the extraction loop visits the slots. */
  const Methods: seq<string> := ["GET", "POST", "PUT", "DELETE", "PATCH", "HEAD", "OPTIONS"]

  /** The operation held in slot `s`, counting in the order of `Methods`. */
  function Slot(item: PathItem, s: nat): Option<Operation>
    requires s < SlotCount
  {
    match s
    case 0 => item.get
    case 1 => item.post
    case 2 => item.put
    case 3 => item.delete
    case 4 => item.patch
    case 5 => item.head
    case _ => item.options
  }
}
