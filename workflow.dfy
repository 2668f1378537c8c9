/**
 * The entities the content workflow initializer works on, and the environment
 * it calls into: the file system, the content node, the parsed content tree
 * (ECRF), the response, the exceptions, and the collaborators whose code is not
 * part of this model.
 */
module Workflow {
  import opened Wrappers
  import opened Paths

  /** An entry of the file system. Reading a regular file whose content is None
      fails with an I/O error. */
  datatype Entry = Directory | RegularFile(content: Option<string>)

  type Files = map<Path, Entry>

  /** The file system as the initializer sees it: every path that exists. */
  class FileSystem {
    var entries: Files

    constructor (entries: Files)
      ensures this.entries == entries
    {
      this.entries := entries;
    }

    /** File.renameTo: whether the operating system accepts the rename is a
        decision of the environment, passed in as `accepted`. */
    method RenameTo(source: Path, target: Path, accepted: bool) returns (renamed: bool)
      modifies this
      ensures renamed == (accepted && source in old(entries))
      ensures entries == if renamed then Moved(old(entries), source, target) else old(entries)
    {
      renamed := accepted && source in entries;
      if renamed {
        entries := Moved(entries, source, target);
      }
    }
  }

  /** The file system after moving `source` to `target`. */
  function Moved(files: Files, source: Path, target: Path): (r: Files)
    requires source in files
    ensures target in r && r[target] == files[source]
    ensures source != target ==> source !in r
    ensures forall p :: p != source && p != target ==> (p in r <==> p in files)
  {
    (files - {source})[target := files[source]]
  }

  /** The node metadata keys the initializer reads or writes; every other key is in `others`. */
  datatype Metadata = Metadata(
    artifactUrl: Option<string>,
    body: Option<string>,
    name: Option<string>,
    downloadUrl: Option<Path>,
    others: map<string, string>)

  /** The value of a content node at one moment. */
  datatype NodeView = NodeView(identifier: Option<string>, metadata: Metadata)

  /** The caller's content node; its metadata map is updated in place. */
  class Node {
    const identifier: Option<string>
    var metadata: Metadata

    constructor (identifier: Option<string>, metadata: Metadata)
      ensures this.identifier == identifier && this.metadata == metadata
    {
      this.identifier := identifier;
      this.metadata := metadata;
    }

    function View(): NodeView
      reads this
    {
      NodeView(identifier, metadata)
    }
  }

  function Nodes(node: Node?): set<Node> {
    if node == null then {} else {node}
  }

  function NodeViewOf(node: Node?): Option<NodeView>
    reads Nodes(node)
  {
    if node == null then None else Some(node.View())
  }

  /** The parameter map of init, as a record of its two entries. */
  datatype Params = Params(file: Option<Path>, node: Node?)

  datatype ParamsView = ParamsView(file: Option<Path>, node: Option<NodeView>)

  function ParamNodes(params: Option<Params>): set<Node> {
    if params.Some? then Nodes(params.value.node) else {}
  }

  function ParamsViewOf(params: Option<Params>): Option<ParamsView>
    reads ParamNodes(params)
  {
    if params.None? then None else Some(ParamsView(params.value.file, NodeViewOf(params.value.node)))
  }

  /** The content tree (a Plugin): a type tag, ordered attributes, ordered children. */
  datatype Plugin = Plugin(tag: string, attributes: seq<(string, string)>, children: seq<Plugin>)

  /** A freshly constructed Plugin with nothing set. */
  const EmptyPlugin := Plugin("", [], [])

  datatype Response = Response(result: map<string, string>)

  /** A freshly constructed Response. */
  const EmptyResponse := Response(map[])

  /** ContentErrorCodeConstants; collaborators may raise codes of their own. */
  datatype ErrorCode = InvalidParameter | MultipleEcml | ZipExtraction | EcmlFileRead | Other(name: string)

  datatype Failure =
    | ClientException(code: ErrorCode, detail: string)
    | ServerException(code: ErrorCode, detail: string)

  /** The two recognised markup dialects, and the undetermined type. */
  datatype MarkupType = Json | Xml | Undetermined {
    /** The type name getECMLType returns. */
    function Name(): string {
      match this
      case Json => "json"
      case Xml => "xml"
      case Undetermined => ""
    }
  }

  /** The processors that PipelineRequestorClient hands out. */
  datatype Stage = Extract | Compress

  /** The parameter map handed to FinalizePipeline.finalyze; an absent key is None. */
  datatype FinalizeParams = FinalizeParams(
    ecrf: Option<Plugin>,
    file: Option<Path>,
    ecmlType: Option<string>,
    node: NodeView)

  /** One call into the environment, as recorded in the trace of a run. */
  datatype Call =
    | ValidatePackage(file: Path)
    | Unzip(archive: Path, destination: Path)
    | ParseXml(xml: string)
    | ParseJson(json: string)
    | RunProcessor(stage: Stage, input: Plugin)
    | Download(url: string, destination: Path)
    | RenameTo(source: Path, target: Path)
    | Finalize(operation: string, params: FinalizeParams)

  /** The trace holds a call of the compress processor. */
  predicate RunsCompress(trace: seq<Call>) {
    exists i :: 0 <= i < |trace| && trace[i].RunProcessor? && trace[i].stage == Compress
  }

  /** The trace holds a download. */
  predicate Downloads(trace: seq<Call>) {
    exists i :: 0 <= i < |trace| && trace[i].Download?
  }

  /** `file != null && file.exists() && file.isFile()`. */
  predicate IsRegularFile(files: Files, file: Option<Path>) {
    file.Some? && file.value in files && files[file.value].RegularFile?
  }

  /**
   * The collaborators, as functions of their arguments and of the file system:
   * ContentValidator.isValidContentPackage; UnzipUtility.unzip (None when it
   * raises an IOException, otherwise the file system after extraction); the XML
   * and JSON content parsers; PipelineRequestorClient.getPipeline(stage, basePath,
   * contentId).execute(tree), which returns the new tree and the file system it
   * leaves behind; HttpDownloadUtility.downloadFile (the downloaded file, or None
   * for null, with the file system it leaves behind); Slug.makeSlug(name, true);
   * whether the operating system accepts a rename; FinalizePipeline.finalyze.
   */
  datatype Collaborators = Collaborators(
    isValidContentPackage: (Files, Path) -> bool,
    unzip: (Files, Path, Path) -> Option<Files>,
    parseXml: string -> Result<Plugin, Failure>,
    parseJson: string -> Result<Plugin, Failure>,
    runProcessor: (Stage, Path, string, Plugin, Files) -> Result<(Plugin, Files), Failure>,
    download: (string, Path, Files) -> (Option<Path>, Files),
    makeSlug: Option<string> -> string,
    renameAccepted: (Files, Path, Path) -> bool,
    finalize: (string, string, FinalizeParams, Files) -> Result<Response, Failure>)

  /** What one run of init produces: its response or exception, the file system
      and the node it leaves behind, and the calls it made, in order. */
  datatype Outcome = Outcome(
    result: Result<Response, Failure>,
    files: Files,
    node: Option<NodeView>,
    trace: seq<Call>)
}
