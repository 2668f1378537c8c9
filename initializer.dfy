/**
 * The content workflow initializer (InitializePipeline): the constructor's
 * argument checks, init's dispatch on the operation (upload, publish, anything
 * else), the compress decision, the markup-file queries, and the name given to a
 * downloaded artifact.
 *
 * The read-only queries are functions of the file system's value. The class's
 * methods work on the file system and the caller's node: Create checks the
 * constructor's arguments, ExtractContentPackage unzips, and Init, Upload,
 * Publish, RunCompress and ReuseArtifact are each proved to produce exactly the
 * outcome of a specification function (InitSpec, UploadSpec, PublishSpec,
 * CompressSpec, ArtifactSpec; PrepareSpec is publish's branch choice). The
 * lemmas in InitializerProperties state what the initializer promises about
 * those functions.
 */
module Initializer {
  import opened Wrappers
  import opened Text
  import opened Paths
  import opened Workflow

  const JsonEcmlFileName: string := "index.json"
  const XmlEcmlFileName: string := "index.ecml"

  function JsonEcmlFile(basePath: Path): Path {
    Join(basePath, JsonEcmlFileName)
  }

  function XmlEcmlFile(basePath: Path): Path {
    Join(basePath, XmlEcmlFileName)
  }

  const PathDoesNotExist := ClientException(InvalidParameter, "Path does not Exist.")
  const InvalidContentId := ClientException(InvalidParameter, "Invalid Content Id.")
  const InvalidOperation := ClientException(InvalidParameter, "Invalid Operation.")
  const FileDoesNotExist := ClientException(InvalidParameter, "File does not Exist.")
  const InvalidNode := ClientException(InvalidParameter, "Invalid or null Node.")
  const MultipleEcmlFiles := ClientException(MultipleEcml, "index.json and index.ecml")
  const ZipExtractionFailed := ServerException(ZipExtraction, "ZIP Extraction Failed.")
  const EcmlFileReadFailed := ServerException(EcmlFileRead, "")

  /** The base-path check of the constructor: the path is given and exists. */
  predicate IsValidBasePath(files: Files, basePath: Option<string>)
    ensures IsValidBasePath(files, basePath) ==> basePath.Some?
    ensures basePath.Some? ==> (IsValidBasePath(files, basePath) <==> basePath.value in files)
  {
    basePath.Some? && basePath.value in files
  }

  /** isCompressRequired: compression is not required exactly when the node has a
      non-blank artifact URL and a blank body; a null node requires it. */
  function IsCompressRequired(node: Option<NodeView>): (required: bool)
    ensures !required <==>
      node.Some? && !IsBlank(node.value.metadata.artifactUrl) && IsBlank(node.value.metadata.body)
  {
    if node.None? then true
    else if !IsBlank(node.value.metadata.artifactUrl) && IsBlank(node.value.metadata.body) then false
    else true
  }

  /** getECMLType: "json" when index.json exists (checked first), else "xml" when
      index.ecml exists, else the undetermined type. Both existing is not an error here. */
  function EcmlType(files: Files, basePath: Path): (t: MarkupType)
    ensures t == Json <==> JsonEcmlFile(basePath) in files
    ensures t == Xml <==> JsonEcmlFile(basePath) !in files && XmlEcmlFile(basePath) in files
    ensures t == Undetermined <==> JsonEcmlFile(basePath) !in files && XmlEcmlFile(basePath) !in files
  {
    if JsonEcmlFile(basePath) in files then Json
    else if XmlEcmlFile(basePath) in files then Xml
    else Undetermined
  }

  /** FileUtils.readFileToString: fails with an I/O error on a directory or an unreadable file. */
  function ReadFileToString(files: Files, p: Path): (r: Result<string, Failure>)
    requires p in files
    ensures r.Ok? <==> files[p].RegularFile? && files[p].content.Some?
    ensures r.Ok? ==> r.value == files[p].content.value
    ensures r.Err? ==> r.error == EcmlFileReadFailed
  {
    match files[p]
    case RegularFile(Some(text)) => Ok(text)
    case _ => Err(EcmlFileReadFailed)
  }

  /** getFileString: the markup text of the base path. */
  function FileString(files: Files, basePath: Path): (r: Result<string, Failure>)
    ensures JsonEcmlFile(basePath) in files && XmlEcmlFile(basePath) in files ==> r == Err(MultipleEcmlFiles)
    ensures JsonEcmlFile(basePath) !in files && XmlEcmlFile(basePath) !in files ==> r == Ok("")
    ensures JsonEcmlFile(basePath) in files && XmlEcmlFile(basePath) !in files ==>
      r == if files[JsonEcmlFile(basePath)].RegularFile? && files[JsonEcmlFile(basePath)].content.Some?
           then Ok(files[JsonEcmlFile(basePath)].content.value) else Err(EcmlFileReadFailed)
    ensures JsonEcmlFile(basePath) !in files && XmlEcmlFile(basePath) in files ==>
      r == if files[XmlEcmlFile(basePath)].RegularFile? && files[XmlEcmlFile(basePath)].content.Some?
           then Ok(files[XmlEcmlFile(basePath)].content.value) else Err(EcmlFileReadFailed)
  {
    var json := JsonEcmlFile(basePath);
    var xml := XmlEcmlFile(basePath);
    if json in files && xml in files then Err(MultipleEcmlFiles)
    else if json in files then ReadFileToString(files, json)
    else if xml in files then ReadFileToString(files, xml)
    else Ok("")
  }

  /** The tree getECRFObject returns, and the parser call it made, if any. */
  datatype Parsed = Parsed(result: Result<Plugin, Failure>, calls: seq<Call>)

  /** getECRFObject: reads the markup text first (so the both-files error comes
      before any parser is chosen), then hands it to the parser of the markup
      type; with no markup file the tree is a fresh empty Plugin. */
  function EcrfObject(files: Files, basePath: Path, env: Collaborators): (r: Parsed)
    ensures FileString(files, basePath).Err? ==> r == Parsed(Err(FileString(files, basePath).error), [])
    ensures FileString(files, basePath).Ok? ==>
      var text := FileString(files, basePath).value;
      match EcmlType(files, basePath)
      case Xml => r == Parsed(env.parseXml(text), [ParseXml(text)])
      case Json => r == Parsed(env.parseJson(text), [ParseJson(text)])
      case Undetermined => r == Parsed(Ok(EmptyPlugin), [])
  {
    match FileString(files, basePath)
    case Err(e) => Parsed(Err(e), [])
    case Ok(ecml) =>
      var ecmlType := EcmlType(files, basePath).Name();
      if EqualsIgnoreCase(ecmlType, "xml") then Parsed(env.parseXml(ecml), [ParseXml(ecml)])
      else if EqualsIgnoreCase(ecmlType, "json") then Parsed(env.parseJson(ecml), [ParseJson(ecml)])
      else Parsed(Ok(EmptyPlugin), [])
  }

  /** The file a downloaded artifact is renamed to: in the artifact's parent
      directory, slug + "_" + millis + "_" + identifier + "." + extension. */
  function RenamedPath(artifact: Path, slug: string, millis: nat, identifier: Option<string>): (r: Path)
    ensures var directory := Concatenated(Parent(artifact));
      |r| > |directory| && r[..|directory|] == directory && r[|directory|] == Separator
    ensures var ext := Extension(artifact);
      |r| > |ext| && r[|r| - |ext| - 1..] == ['.'] + ext
  {
    var directory := Concatenated(Parent(artifact));
    var ext := Extension(artifact);
    var stem := slug + "_" + DecimalString(millis) + "_" + Concatenated(identifier);
    var r := Join(directory, stem + "." + ext);
    assert r == (directory + [Separator]) + (stem + ['.'] + ext);
    assert r == (directory + [Separator] + stem) + (['.'] + ext);
    r
  }

  /** The upload case of init. */
  function UploadSpec(basePath: Path, contentId: string, operation: string, file: Option<Path>,
                      node: Option<NodeView>, files: Files, env: Collaborators): (r: Outcome)
    ensures r.trace == [] <==> file.None? || file.value !in files || node.None?
    ensures r.trace == [] ==> r.result.Err? && r.files == files
    ensures r.trace != [] ==> file.Some? && r.trace[0] == ValidatePackage(file.value)
  {
    if file.None? || file.value !in files then Outcome(Err(FileDoesNotExist), files, node, [])
    else if node.None? then Outcome(Err(InvalidNode), files, node, [])
    else
      var validated := [ValidatePackage(file.value)];
      if !env.isValidContentPackage(files, file.value) then Outcome(Ok(EmptyResponse), files, node, validated)
      else
        var unzipped := validated + [Unzip(file.value, basePath)];
        match env.unzip(files, file.value, basePath)
        case None => Outcome(Err(ZipExtractionFailed), files, node, unzipped)
        case Some(extracted) =>
          var parsed := EcrfObject(extracted, basePath, env);
          var read := unzipped + parsed.calls;
          match parsed.result
          case Err(e) => Outcome(Err(e), extracted, node, read)
          case Ok(ecrf) =>
            var processed := read + [RunProcessor(Extract, ecrf)];
            match env.runProcessor(Extract, basePath, contentId, ecrf, extracted)
            case Err(e) => Outcome(Err(e), extracted, node, processed)
            case Ok((tree, after)) =>
              var params := FinalizeParams(Some(tree), Some(file.value), Some(EcmlType(after, basePath).Name()), node.value);
              Outcome(env.finalize(operation, contentId, params, after), after, node, processed + [Finalize(operation, params)])
  }

  /** How far publish got before finalize: the exception that stopped it, if
      any, and the file system, node and calls up to that point. */
  datatype Prepared = Prepared(failure: Option<Failure>, files: Files, node: NodeView, trace: seq<Call>)

  /** The compress branch of publish: parse the markup already at the base path
      and run the compress processor on it; the tree it returns is dropped. */
  function CompressSpec(basePath: Path, contentId: string, node: NodeView, files: Files,
                        env: Collaborators): (r: Prepared)
    ensures r.node == node
    ensures forall i :: 0 <= i < |r.trace| && r.trace[i].RunProcessor? ==>
      r.trace[i].stage == Compress && EcrfObject(files, basePath, env).result == Ok(r.trace[i].input)
    ensures r.failure.None? ==> r.trace != [] && r.trace[|r.trace| - 1].RunProcessor?
    ensures r.failure.Some? ==> r.files == files
    ensures RunsCompress(r.trace) <==> EcrfObject(files, basePath, env).result.Ok?
    ensures !Downloads(r.trace)
  {
    var parsed := EcrfObject(files, basePath, env);
    match parsed.result
    case Err(e) => Prepared(Some(e), files, node, parsed.calls)
    case Ok(ecrf) =>
      var processed := parsed.calls + [RunProcessor(Compress, ecrf)];
      assert processed[|parsed.calls|] == RunProcessor(Compress, ecrf);
      match env.runProcessor(Compress, basePath, contentId, ecrf, files)
      case Err(e) => Prepared(Some(e), files, node, processed)
      case Ok((_, after)) => Prepared(None, after, node, processed)
  }

  /** The artifact branch of publish, entered with a non-blank artifact URL:
      download it into the base path and, when a regular file arrives, rename it
      and record the renamed file as the node's download URL. */
  function ArtifactSpec(basePath: Path, node: NodeView, files: Files, clock: nat, env: Collaborators): (r: Prepared)
    requires node.metadata.artifactUrl.Some?
    ensures r.failure.None?
    ensures 1 <= |r.trace| <= 2 && r.trace[0] == Download(node.metadata.artifactUrl.value, basePath)
    ensures |r.trace| == 2 ==> r.trace[1].RenameTo?
    ensures var fetched := env.download(node.metadata.artifactUrl.value, basePath, files);
      |r.trace| == 2 <==> IsRegularFile(fetched.1, fetched.0)
    ensures var fetched := env.download(node.metadata.artifactUrl.value, basePath, files);
      |r.trace| == 1 ==> r.files == fetched.1 && r.node == node
    ensures Downloads(r.trace) && !RunsCompress(r.trace)
  {
    var url := node.metadata.artifactUrl.value;
    var (downloaded, fetched) := env.download(url, basePath, files);
    if IsRegularFile(fetched, downloaded) then
      var artifact := downloaded.value;
      var ecar := RenamedPath(artifact, env.makeSlug(node.metadata.name), clock, node.identifier);
      var renamed := if env.renameAccepted(fetched, artifact, ecar) then Moved(fetched, artifact, ecar) else fetched;
      var trace := [Download(url, basePath), RenameTo(artifact, ecar)];
      assert trace[0].Download? && !trace[0].RunProcessor? && !trace[1].RunProcessor?;
      Prepared(None, renamed, node.(metadata := node.metadata.(downloadUrl := Some(ecar))), trace)
    else
      var trace := [Download(url, basePath)];
      assert trace[0].Download? && !trace[0].RunProcessor?;
      Prepared(None, fetched, node, trace)
  }

  /** The part of publish before finalize: the compress branch when
      isCompressRequired is false, else the artifact branch for a non-blank
      artifact URL, else nothing. */
  function PrepareSpec(basePath: Path, contentId: string, node: NodeView, files: Files, clock: nat,
                       env: Collaborators): (r: Prepared)
    ensures RunsCompress(r.trace) <==> !IsCompressRequired(Some(node)) && EcrfObject(files, basePath, env).result.Ok?
    ensures Downloads(r.trace) <==> IsCompressRequired(Some(node)) && !IsBlank(node.metadata.artifactUrl)
  {
    if !IsCompressRequired(Some(node)) then CompressSpec(basePath, contentId, node, files, env)
    else if IsBlank(node.metadata.artifactUrl) then Prepared(None, files, node, [])
    else ArtifactSpec(basePath, node, files, clock, env)
  }

  /** The publish case of init, as written: the compress processor runs when
      isCompressRequired is false, and the artifact is downloaded otherwise;
      finalize then receives the node alone. */
  function PublishSpec(basePath: Path, contentId: string, operation: string, node: Option<NodeView>,
                       files: Files, clock: nat, env: Collaborators): (r: Outcome)
    ensures r.result.Ok? ==> r.trace != [] && r.trace[|r.trace| - 1].Finalize?
    ensures r.node.Some? <==> node.Some?
    ensures r.node.Some? ==>
      (r.node.value.identifier == node.value.identifier
       && r.node.value.metadata == node.value.metadata.(downloadUrl := r.node.value.metadata.downloadUrl))
  {
    if node.None? then Outcome(Err(InvalidNode), files, node, [])
    else
      var prepared := PrepareSpec(basePath, contentId, node.value, files, clock, env);
      if prepared.failure.Some? then Outcome(Err(prepared.failure.value), prepared.files, Some(prepared.node), prepared.trace)
      else
        var params := FinalizeParams(None, None, None, prepared.node);
        Outcome(env.finalize(operation, contentId, params, prepared.files), prepared.files, Some(prepared.node),
                prepared.trace + [Finalize(operation, params)])
  }

  predicate IsUpload(operation: string) {
    operation == "upload" || operation == "UPLOAD"
  }

  predicate IsPublish(operation: string) {
    operation == "publish" || operation == "PUBLISH"
  }

  /** init: a blank operation is a client error; a null parameter map or an
      unrecognised operation leaves everything as it was and returns a fresh
      empty Response. */
  function InitSpec(basePath: Path, contentId: string, operation: Option<string>, params: Option<ParamsView>,
                    files: Files, clock: nat, env: Collaborators): (r: Outcome)
    ensures r.trace != [] ==> params.Some? && !IsBlank(operation) && (IsUpload(operation.value) || IsPublish(operation.value))
    ensures r.trace == [] ==> r.files == files && r.node == (if params.Some? then params.value.node else None)
  {
    var node := if params.Some? then params.value.node else None;
    if IsBlank(operation) then Outcome(Err(InvalidOperation), files, node, [])
    else if params.Some? && !IsBlank(operation) then
      if IsUpload(operation.value) then
        UploadSpec(basePath, contentId, operation.value, params.value.file, node, files, env)
      else if IsPublish(operation.value) then
        PublishSpec(basePath, contentId, operation.value, node, files, clock, env)
      else Outcome(Ok(EmptyResponse), files, node, [])
    else Outcome(Ok(EmptyResponse), files, node, [])
  }

  class InitializePipeline {
    const basePath: Path
    const contentId: string

    constructor (basePath: Path, contentId: string)
      ensures this.basePath == basePath && this.contentId == contentId
    {
      this.basePath := basePath;
      this.contentId := contentId;
    }

    /** The checking constructor: a base path that does not exist, then a blank
        content id, are client errors; otherwise both are stored unchanged. */
    static method Create(fs: FileSystem, basePath: Option<string>, contentId: Option<string>)
      returns (r: Result<InitializePipeline, Failure>)
      ensures !IsValidBasePath(fs.entries, basePath) ==> r == Err(PathDoesNotExist)
      ensures IsValidBasePath(fs.entries, basePath) && IsBlank(contentId) ==> r == Err(InvalidContentId)
      ensures IsValidBasePath(fs.entries, basePath) && !IsBlank(contentId) ==>
        r.Ok? && fresh(r.value) && r.value.basePath == basePath.value && r.value.contentId == contentId.value
    {
      if !IsValidBasePath(fs.entries, basePath) {
        return Err(PathDoesNotExist);
      }
      if IsBlank(contentId) {
        return Err(InvalidContentId);
      }
      var pipeline := new InitializePipeline(basePath.value, contentId.value);
      return Ok(pipeline);
    }

    /** init: the response or exception, the file system and node it leaves, and
        the calls it makes are those of InitSpec. */
    method Init(fs: FileSystem, operation: Option<string>, params: Option<Params>, clock: nat, env: Collaborators)
      returns (r: Result<Response, Failure>, ghost trace: seq<Call>)
      modifies fs, ParamNodes(params)
      ensures var o := InitSpec(basePath, contentId, operation, old(ParamsViewOf(params)), old(fs.entries), clock, env);
        r == o.result && fs.entries == o.files && trace == o.trace
        && (params.Some? ==> NodeViewOf(params.value.node) == o.node)
    {
      r := Ok(EmptyResponse);
      trace := [];
      if IsBlank(operation) {
        r := Err(InvalidOperation);
        return;
      }
      if params.Some? && !IsBlank(operation) {
        var op := operation.value;
        if IsUpload(op) {
          r, trace := Upload(fs, op, params.value.file, params.value.node, env);
        } else if IsPublish(op) {
          r, trace := Publish(fs, op, params.value.node, clock, env);
        }
      }
    }

    /** extractContentPackage: unzip into the base path; an I/O failure becomes a
        ZIP_EXTRACTION server exception. */
    method ExtractContentPackage(fs: FileSystem, file: Path, env: Collaborators) returns (failure: Option<Failure>)
      modifies fs
      ensures env.unzip(old(fs.entries), file, basePath).None? ==>
        failure == Some(ZipExtractionFailed) && fs.entries == old(fs.entries)
      ensures env.unzip(old(fs.entries), file, basePath).Some? ==>
        failure == None && fs.entries == env.unzip(old(fs.entries), file, basePath).value
    {
      var extracted := env.unzip(fs.entries, file, basePath);
      if extracted.None? {
        return Some(ZipExtractionFailed);
      }
      fs.entries := extracted.value;
      return None;
    }

    /** The upload case of init. */
    method Upload(fs: FileSystem, op: string, file: Option<Path>, node: Node?, env: Collaborators)
      returns (r: Result<Response, Failure>, ghost trace: seq<Call>)
      modifies fs
      ensures var o := UploadSpec(basePath, contentId, op, file, NodeViewOf(node), old(fs.entries), env);
        r == o.result && fs.entries == o.files && trace == o.trace
    {
      r := Ok(EmptyResponse);
      trace := [];
      if file.None? || file.value !in fs.entries {
        r := Err(FileDoesNotExist);
        return;
      }
      if node == null {
        r := Err(InvalidNode);
        return;
      }
      trace := [ValidatePackage(file.value)];
      if env.isValidContentPackage(fs.entries, file.value) {
        var failure := ExtractContentPackage(fs, file.value, env);
        trace := trace + [Unzip(file.value, basePath)];
        if failure.Some? {
          r := Err(failure.value);
          return;
        }
        var parsed := EcrfObject(fs.entries, basePath, env);
        trace := trace + parsed.calls;
        if parsed.result.Err? {
          r := Err(parsed.result.error);
          return;
        }
        var ecrf := parsed.result.value;
        trace := trace + [RunProcessor(Extract, ecrf)];
        var executed := env.runProcessor(Extract, basePath, contentId, ecrf, fs.entries);
        if executed.Err? {
          r := Err(executed.error);
          return;
        }
        ecrf := executed.value.0;
        fs.entries := executed.value.1;
        var finalizeParams := FinalizeParams(Some(ecrf), Some(file.value), Some(EcmlType(fs.entries, basePath).Name()), node.View());
        trace := trace + [Finalize(op, finalizeParams)];
        r := env.finalize(op, contentId, finalizeParams, fs.entries);
      }
    }

    /** The publish case of init. */
    method Publish(fs: FileSystem, op: string, node: Node?, clock: nat, env: Collaborators)
      returns (r: Result<Response, Failure>, ghost trace: seq<Call>)
      modifies fs, Nodes(node)
      ensures var o := PublishSpec(basePath, contentId, op, old(NodeViewOf(node)), old(fs.entries), clock, env);
        r == o.result && fs.entries == o.files && trace == o.trace && NodeViewOf(node) == o.node
    {
      trace := [];
      if node == null {
        r := Err(InvalidNode);
        return;
      }
      var artifactUrl := node.metadata.artifactUrl;
      if !IsCompressRequired(Some(node.View())) {
        var failure;
        failure, trace := RunCompress(fs, node.View(), env);
        if failure.Some? {
          r := Err(failure.value);
          return;
        }
      } else {
        if !IsBlank(artifactUrl) {
          trace := ReuseArtifact(fs, node, clock, env);
        }
      }
      var finalizeParams := FinalizeParams(None, None, None, node.View());
      trace := trace + [Finalize(op, finalizeParams)];
      r := env.finalize(op, contentId, finalizeParams, fs.entries);
    }

    /** The compress branch of publish. */
    method RunCompress(fs: FileSystem, node: NodeView, env: Collaborators)
      returns (failure: Option<Failure>, ghost trace: seq<Call>)
      modifies fs
      ensures var p := CompressSpec(basePath, contentId, node, old(fs.entries), env);
        failure == p.failure && fs.entries == p.files && trace == p.trace
    {
      var parsed := EcrfObject(fs.entries, basePath, env);
      trace := parsed.calls;
      if parsed.result.Err? {
        return Some(parsed.result.error), trace;
      }
      var ecrf := parsed.result.value;
      trace := trace + [RunProcessor(Compress, ecrf)];
      var executed := env.runProcessor(Compress, basePath, contentId, ecrf, fs.entries);
      if executed.Err? {
        return Some(executed.error), trace;
      }
      ecrf := executed.value.0;
      fs.entries := executed.value.1;
      failure := None;
    }

    /** The artifact branch of publish: download, rename, record the download URL. */
    method ReuseArtifact(fs: FileSystem, node: Node, clock: nat, env: Collaborators) returns (ghost trace: seq<Call>)
      requires node.metadata.artifactUrl.Some?
      modifies fs, node
      ensures var p := ArtifactSpec(basePath, old(node.View()), old(fs.entries), clock, env);
        fs.entries == p.files && node.View() == p.node && trace == p.trace
    {
      var artifactUrl := node.metadata.artifactUrl.value;
      var (downloaded, fetched) := env.download(artifactUrl, basePath, fs.entries);
      fs.entries := fetched;
      trace := [Download(artifactUrl, basePath)];
      if IsRegularFile(fs.entries, downloaded) {
        var artifactFile := downloaded.value;
        var ecar := RenamedPath(artifactFile, env.makeSlug(node.metadata.name), clock, node.identifier);
        var _ := fs.RenameTo(artifactFile, ecar, env.renameAccepted(fs.entries, artifactFile, ecar));
        trace := trace + [RenameTo(artifactFile, ecar)];
        node.metadata := node.metadata.(downloadUrl := Some(ecar));
      }
    }
  }
}
