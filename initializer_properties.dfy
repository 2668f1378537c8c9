/**
 * What the content workflow initializer promises, stated over InitSpec and its
 * parts: client errors before any side effect, the silent no-op for unrecognised
 * operations, the fixed order of the stages, the file-type priority, the
 * compress decision as the publish branch actually applies it, and the name of
 * the renamed artifact.
 */
module InitializerProperties {
  import opened Wrappers
  import opened Text
  import opened Paths
  import opened Workflow
  import opened Initializer

  /** The four operation spellings init acts on. */
  predicate Recognised(operation: string) {
    IsUpload(operation) || IsPublish(operation)
  }

  function NodeOf(params: Option<ParamsView>): Option<NodeView> {
    if params.Some? then params.value.node else None
  }

  /** Each call's place in the one order all runs follow. */
  function Rank(call: Call): nat {
    match call
    case ValidatePackage(_) => 0
    case Unzip(_, _) => 1
    case ParseXml(_) => 2
    case ParseJson(_) => 2
    case RunProcessor(_, _) => 3
    case Download(_, _) => 4
    case RenameTo(_, _) => 5
    case Finalize(_, _) => 6
  }

  /** Every call comes after every call of a lower rank, and no stage runs twice. */
  predicate InStageOrder(trace: seq<Call>) {
    forall i, j :: 0 <= i < j < |trace| ==> Rank(trace[i]) < Rank(trace[j])
  }

  // ---------------------------------------------------------------------------
  // Parameter checks and dispatch

  /** A blank or null operation is a client error, raised before anything else:
      no call, no change. */
  lemma BlankOperationRejected(basePath: Path, contentId: string, operation: Option<string>,
                               params: Option<ParamsView>, files: Files, clock: nat, env: Collaborators)
    requires IsBlank(operation)
    ensures var o := InitSpec(basePath, contentId, operation, params, files, clock, env);
      o == Outcome(Err(ClientException(InvalidParameter, "Invalid Operation.")), files, NodeOf(params), [])
  {
  }

  /** With a non-blank operation, a null parameter map or an operation other than
      exactly upload, UPLOAD, publish or PUBLISH is a no-op returning a fresh empty
      Response; and those are the only inputs for which init returns the empty
      Response without making a single call. */
  lemma UnrecognisedOperationIsNoOp(basePath: Path, contentId: string, operation: Option<string>,
                                    params: Option<ParamsView>, files: Files, clock: nat, env: Collaborators)
    requires !IsBlank(operation)
    ensures var o := InitSpec(basePath, contentId, operation, params, files, clock, env);
      (params.None? || !Recognised(operation.value)) <==> (o.result == Ok(EmptyResponse) && o.trace == [])
    ensures var o := InitSpec(basePath, contentId, operation, params, files, clock, env);
      params.None? || !Recognised(operation.value) ==> o.files == files && o.node == NodeOf(params)
  {
    var o := InitSpec(basePath, contentId, operation, params, files, clock, env);
    if params.Some? && IsUpload(operation.value) {
      UploadIsRejectedOrCalls(basePath, contentId, operation.value, params.value.file, params.value.node, files, env);
    } else if params.Some? && IsPublish(operation.value) {
      PublishIsRejectedOrCalls(basePath, contentId, operation.value, params.value.node, files, clock, env);
    }
  }

  /** Upload with a recognised spelling either raises or makes at least one call. */
  lemma UploadIsRejectedOrCalls(basePath: Path, contentId: string, operation: string, file: Option<Path>,
                                node: Option<NodeView>, files: Files, env: Collaborators)
    ensures var o := UploadSpec(basePath, contentId, operation, file, node, files, env);
      o.result.Err? || o.trace != []
  {
  }

  /** Publish either raises or makes at least one call (finalize, at the least). */
  lemma PublishIsRejectedOrCalls(basePath: Path, contentId: string, operation: string,
                                 node: Option<NodeView>, files: Files, clock: nat, env: Collaborators)
    ensures var o := PublishSpec(basePath, contentId, operation, node, files, clock, env);
      o.result.Err? || o.trace != []
  {
  }

  /** init hands "upload" and "UPLOAD" to the upload case, and "publish" and
      "PUBLISH" to the publish case, with the map's file and node. */
  lemma InitDispatches(basePath: Path, contentId: string, operation: string, params: ParamsView,
                       files: Files, clock: nat, env: Collaborators)
    ensures IsUpload(operation) ==>
      InitSpec(basePath, contentId, Some(operation), Some(params), files, clock, env)
        == UploadSpec(basePath, contentId, operation, params.file, params.node, files, env)
    ensures IsPublish(operation) ==>
      InitSpec(basePath, contentId, Some(operation), Some(params), files, clock, env)
        == PublishSpec(basePath, contentId, operation, params.node, files, clock, env)
  {
    if IsUpload(operation) || IsPublish(operation) {
      assert !IsWhitespace(operation[0]);
    }
  }

  /** The operation match is case-sensitive: "Upload" falls through to the no-op. */
  lemma MixedCaseUploadFallsThrough(basePath: Path, contentId: string, params: ParamsView,
                                    files: Files, clock: nat, env: Collaborators)
    ensures InitSpec(basePath, contentId, Some("Upload"), Some(params), files, clock, env)
      == Outcome(Ok(EmptyResponse), files, params.node, [])
  {
  }

  // ---------------------------------------------------------------------------
  // Upload

  /** Upload checks its parameters before any validation, extraction or
      processing: a null or missing file, then a null node, are client errors
      with no call and no change. */
  lemma UploadRejectsMissingArguments(basePath: Path, contentId: string, operation: string, file: Option<Path>,
                                      node: Option<NodeView>, files: Files, env: Collaborators)
    requires file.None? || file.value !in files || node.None?
    ensures var o := UploadSpec(basePath, contentId, operation, file, node, files, env);
      o == Outcome(Err(if file.None? || file.value !in files then FileDoesNotExist else InvalidNode), files, node, [])
  {
  }

  /** An invalid package is skipped silently: only the validator was consulted,
      nothing changed, and the response is the fresh empty one. */
  lemma UploadInvalidPackageSkipped(basePath: Path, contentId: string, operation: string, file: Path,
                                    node: NodeView, files: Files, env: Collaborators)
    requires file in files && !env.isValidContentPackage(files, file)
    ensures UploadSpec(basePath, contentId, operation, Some(file), Some(node), files, env)
      == Outcome(Ok(EmptyResponse), files, Some(node), [ValidatePackage(file)])
  {
  }

  /** A valid package whose extraction fails: a ZIP_EXTRACTION server exception
      after validate and unzip, and nothing parsed, processed or finalized. */
  lemma UploadExtractionFailure(basePath: Path, contentId: string, operation: string, file: Path,
                                node: NodeView, files: Files, env: Collaborators)
    requires file in files && env.isValidContentPackage(files, file)
    requires env.unzip(files, file, basePath).None?
    ensures UploadSpec(basePath, contentId, operation, Some(file), Some(node), files, env)
      == Outcome(Err(ServerException(ZipExtraction, "ZIP Extraction Failed.")), files, Some(node),
                 [ValidatePackage(file), Unzip(file, basePath)])
  {
  }

  /** A valid package with every stage succeeding: validate, unzip into the base
      path, read and parse the markup of the extracted files, run the extract
      processor on the parsed tree, then finalize with {ecrf = the processor's
      tree, file, the markup type found after processing, node}; init returns
      finalize's response verbatim. */
  lemma UploadStageOrder(basePath: Path, contentId: string, operation: string, file: Path, node: NodeView,
                         files: Files, env: Collaborators, extracted: Files, tree: Plugin, processed: Plugin, after: Files)
    requires file in files && env.isValidContentPackage(files, file)
    requires env.unzip(files, file, basePath) == Some(extracted)
    requires EcrfObject(extracted, basePath, env).result == Ok(tree)
    requires env.runProcessor(Extract, basePath, contentId, tree, extracted) == Ok((processed, after))
    ensures var o := UploadSpec(basePath, contentId, operation, Some(file), Some(node), files, env);
      var params := FinalizeParams(Some(processed), Some(file), Some(EcmlType(after, basePath).Name()), node);
      && o.trace == [ValidatePackage(file), Unzip(file, basePath)] + EcrfObject(extracted, basePath, env).calls
                    + [RunProcessor(Extract, tree), Finalize(operation, params)]
      && o.result == env.finalize(operation, contentId, params, after)
      && o.files == after && o.node == Some(node)
  {
  }

  /** A markup-read or parse exception after extraction ends the upload with
      that exception: no processor runs and finalize is not called. */
  lemma UploadMarkupErrorStops(basePath: Path, contentId: string, operation: string, file: Path, node: NodeView,
                               files: Files, extracted: Files, env: Collaborators, e: Failure)
    requires file in files && env.isValidContentPackage(files, file)
    requires env.unzip(files, file, basePath) == Some(extracted)
    requires EcrfObject(extracted, basePath, env).result == Err(e)
    ensures UploadSpec(basePath, contentId, operation, Some(file), Some(node), files, env)
      == Outcome(Err(e), extracted, Some(node),
                 [ValidatePackage(file), Unzip(file, basePath)] + EcrfObject(extracted, basePath, env).calls)
  {
  }

  /** An exception of the extract processor ends the upload with that
      exception, after the processor call and before finalize. */
  lemma UploadProcessorErrorStops(basePath: Path, contentId: string, operation: string, file: Path, node: NodeView,
                                  files: Files, extracted: Files, env: Collaborators, tree: Plugin, e: Failure)
    requires file in files && env.isValidContentPackage(files, file)
    requires env.unzip(files, file, basePath) == Some(extracted)
    requires EcrfObject(extracted, basePath, env).result == Ok(tree)
    requires env.runProcessor(Extract, basePath, contentId, tree, extracted) == Err(e)
    ensures UploadSpec(basePath, contentId, operation, Some(file), Some(node), files, env)
      == Outcome(Err(e), extracted, Some(node),
                 [ValidatePackage(file), Unzip(file, basePath)] + EcrfObject(extracted, basePath, env).calls
                   + [RunProcessor(Extract, tree)])
  {
  }

  /** Upload never touches the node. */
  lemma UploadLeavesNodeUnchanged(basePath: Path, contentId: string, operation: string, file: Option<Path>,
                                  node: Option<NodeView>, files: Files, env: Collaborators)
    ensures UploadSpec(basePath, contentId, operation, file, node, files, env).node == node
  {
  }

  // ---------------------------------------------------------------------------
  // Stage order over every run

  lemma ParsedCallsShape(files: Files, basePath: Path, env: Collaborators)
    ensures var calls := EcrfObject(files, basePath, env).calls;
      calls == [] || (|calls| == 1 && Rank(calls[0]) == 2)
  {
  }

  /** Appending a later call keeps the order. */
  lemma AppendInOrder(trace: seq<Call>, call: Call)
    requires InStageOrder(trace)
    requires forall i :: 0 <= i < |trace| ==> Rank(trace[i]) < Rank(call)
    ensures InStageOrder(trace + [call])
  {
    var t := trace + [call];
    forall i, j | 0 <= i < j < |t| ensures Rank(t[i]) < Rank(t[j]) {
      if j < |trace| {
        assert t[i] == trace[i] && t[j] == trace[j];
      } else {
        assert t[i] == trace[i] && t[j] == call;
      }
    }
  }

  /** Every run of init calls the environment in the one fixed order (validate,
      unzip, parse, processor, download, rename, finalize) and runs no stage
      twice. */
  lemma {:induction false} StagesRunInFixedOrder(basePath: Path, contentId: string, operation: Option<string>,
                                                 params: Option<ParamsView>, files: Files, clock: nat, env: Collaborators)
    ensures InStageOrder(InitSpec(basePath, contentId, operation, params, files, clock, env).trace)
  {
    if !IsBlank(operation) && params.Some? {
      if IsUpload(operation.value) {
        UploadInOrder(basePath, contentId, operation.value, params.value.file, params.value.node, files, env);
      } else if IsPublish(operation.value) {
        PublishInOrder(basePath, contentId, operation.value, params.value.node, files, clock, env);
      }
    }
  }

  lemma UploadInOrder(basePath: Path, contentId: string, operation: string, file: Option<Path>,
                      node: Option<NodeView>, files: Files, env: Collaborators)
    ensures InStageOrder(UploadSpec(basePath, contentId, operation, file, node, files, env).trace)
  {
    var o := UploadSpec(basePath, contentId, operation, file, node, files, env);
    if file.Some? && file.value in files && node.Some? && env.isValidContentPackage(files, file.value) {
      match env.unzip(files, file.value, basePath)
      case None =>
        assert o.trace == [ValidatePackage(file.value), Unzip(file.value, basePath)];
      case Some(extracted) =>
        ExtractedUploadInOrder(basePath, contentId, operation, file.value, node.value, files, extracted, env);
    }
  }

  /** The upload calls once the archive is extracted: validate, unzip, parse, extract, finalize. */
  lemma ExtractedUploadInOrder(basePath: Path, contentId: string, operation: string, file: Path,
                               node: NodeView, files: Files, extracted: Files, env: Collaborators)
    requires file in files && env.isValidContentPackage(files, file)
    requires env.unzip(files, file, basePath) == Some(extracted)
    ensures InStageOrder(UploadSpec(basePath, contentId, operation, Some(file), Some(node), files, env).trace)
  {
    var o := UploadSpec(basePath, contentId, operation, Some(file), Some(node), files, env);
    var parsed := EcrfObject(extracted, basePath, env);
    ParsedCallsShape(extracted, basePath, env);
    var read := [ValidatePackage(file), Unzip(file, basePath)] + parsed.calls;
    assert InStageOrder(read);
    match parsed.result
    case Err(e) =>
      UploadMarkupErrorStops(basePath, contentId, operation, file, node, files, extracted, env, e);
    case Ok(ecrf) =>
      AppendInOrder(read, RunProcessor(Extract, ecrf));
      var processed := read + [RunProcessor(Extract, ecrf)];
      match env.runProcessor(Extract, basePath, contentId, ecrf, extracted)
      case Err(e) =>
        UploadProcessorErrorStops(basePath, contentId, operation, file, node, files, extracted, env, ecrf, e);
      case Ok((tree, after)) =>
        var params := FinalizeParams(Some(tree), Some(file), Some(EcmlType(after, basePath).Name()), node);
        AppendInOrder(processed, Finalize(operation, params));
        UploadStageOrder(basePath, contentId, operation, file, node, files, env, extracted, ecrf, tree, after);
        assert o.trace == processed + [Finalize(operation, params)];
  }

  lemma CompressInOrder(basePath: Path, contentId: string, node: NodeView, files: Files, env: Collaborators)
    ensures var p := CompressSpec(basePath, contentId, node, files, env);
      InStageOrder(p.trace) && forall i :: 0 <= i < |p.trace| ==> Rank(p.trace[i]) < 6
  {
    var parsed := EcrfObject(files, basePath, env);
    ParsedCallsShape(files, basePath, env);
    if parsed.result.Ok? {
      AppendInOrder(parsed.calls, RunProcessor(Compress, parsed.result.value));
    }
  }

  lemma ArtifactInOrder(basePath: Path, node: NodeView, files: Files, clock: nat, env: Collaborators)
    requires node.metadata.artifactUrl.Some?
    ensures var p := ArtifactSpec(basePath, node, files, clock, env);
      InStageOrder(p.trace) && forall i :: 0 <= i < |p.trace| ==> Rank(p.trace[i]) < 6
  {
    DownloadThenRenameInOrder(ArtifactSpec(basePath, node, files, clock, env).trace);
  }

  /** A download, followed at most by a rename, is in stage order before finalize. */
  lemma DownloadThenRenameInOrder(trace: seq<Call>)
    requires 1 <= |trace| <= 2 && trace[0].Download?
    requires |trace| == 2 ==> trace[1].RenameTo?
    ensures InStageOrder(trace) && forall i :: 0 <= i < |trace| ==> Rank(trace[i]) < 6
  {
    assert Rank(trace[0]) == 4;
  }

  lemma PreparedInOrder(basePath: Path, contentId: string, n: NodeView, files: Files, clock: nat, env: Collaborators)
    ensures var p := PrepareSpec(basePath, contentId, n, files, clock, env);
      InStageOrder(p.trace) && forall i :: 0 <= i < |p.trace| ==> Rank(p.trace[i]) < 6
  {
    if !IsCompressRequired(Some(n)) {
      CompressInOrder(basePath, contentId, n, files, env);
    } else if !IsBlank(n.metadata.artifactUrl) {
      ArtifactInOrder(basePath, n, files, clock, env);
    }
  }

  /** Publish is its prepared part followed, unless that failed, by finalize with the node alone. */
  lemma PublishUnfolds(basePath: Path, contentId: string, operation: string, n: NodeView,
                       files: Files, clock: nat, env: Collaborators)
    ensures var o := PublishSpec(basePath, contentId, operation, Some(n), files, clock, env);
      var p := PrepareSpec(basePath, contentId, n, files, clock, env);
      var params := FinalizeParams(None, None, None, p.node);
      o == if p.failure.Some? then Outcome(Err(p.failure.value), p.files, Some(p.node), p.trace)
           else Outcome(env.finalize(operation, contentId, params, p.files), p.files, Some(p.node),
                        p.trace + [Finalize(operation, params)])
  {
  }

  lemma PublishInOrder(basePath: Path, contentId: string, operation: string, node: Option<NodeView>,
                       files: Files, clock: nat, env: Collaborators)
    ensures InStageOrder(PublishSpec(basePath, contentId, operation, node, files, clock, env).trace)
  {
    if node.Some? {
      var p := PrepareSpec(basePath, contentId, node.value, files, clock, env);
      PreparedInOrder(basePath, contentId, node.value, files, clock, env);
      PublishUnfolds(basePath, contentId, operation, node.value, files, clock, env);
      if p.failure.None? {
        AppendInOrder(p.trace, Finalize(operation, FinalizeParams(None, None, None, p.node)));
      }
    }
  }

  /** A trace in stage order holds a finalize call only as its last call. */
  lemma FinalizeOnlyLast(trace: seq<Call>, i: nat)
    requires InStageOrder(trace) && i < |trace| && trace[i].Finalize?
    ensures i == |trace| - 1
  {
    assert Rank(trace[|trace| - 1]) <= 6;
  }

  predicate EndsWithFinalize(trace: seq<Call>) {
    trace != [] && trace[|trace| - 1].Finalize?
  }

  lemma UploadReturnsFinalizeResponse(basePath: Path, contentId: string, operation: string, file: Option<Path>,
                                      node: Option<NodeView>, files: Files, env: Collaborators)
    ensures var o := UploadSpec(basePath, contentId, operation, file, node, files, env);
      EndsWithFinalize(o.trace) ==>
        var last := o.trace[|o.trace| - 1];
        o.result == env.finalize(last.operation, contentId, last.params, o.files)
  {
  }

  lemma PublishReturnsFinalizeResponse(basePath: Path, contentId: string, operation: string, node: Option<NodeView>,
                                       files: Files, clock: nat, env: Collaborators)
    ensures var o := PublishSpec(basePath, contentId, operation, node, files, clock, env);
      EndsWithFinalize(o.trace) ==>
        var last := o.trace[|o.trace| - 1];
        o.result == env.finalize(last.operation, contentId, last.params, o.files)
        && last.params == FinalizeParams(None, None, None, o.node.value)
  {
    if node.Some? {
      var p := PrepareSpec(basePath, contentId, node.value, files, clock, env);
      PreparedInOrder(basePath, contentId, node.value, files, clock, env);
      PublishUnfolds(basePath, contentId, operation, node.value, files, clock, env);
      if p.failure.Some? && p.trace != [] {
        assert Rank(p.trace[|p.trace| - 1]) < 6;
      }
    }
  }

  /** Whenever finalize is called it is the last call, and init returns its
      response verbatim. */
  lemma FinalizeIsLastAndReturnedVerbatim(basePath: Path, contentId: string, operation: Option<string>,
                                          params: Option<ParamsView>, files: Files, clock: nat, env: Collaborators,
                                          i: nat)
    requires var o := InitSpec(basePath, contentId, operation, params, files, clock, env);
      i < |o.trace| && o.trace[i].Finalize?
    ensures var o := InitSpec(basePath, contentId, operation, params, files, clock, env);
      i == |o.trace| - 1 && o.result == env.finalize(o.trace[i].operation, contentId, o.trace[i].params, o.files)
  {
    var o := InitSpec(basePath, contentId, operation, params, files, clock, env);
    StagesRunInFixedOrder(basePath, contentId, operation, params, files, clock, env);
    FinalizeOnlyLast(o.trace, i);
    assert !IsBlank(operation) && params.Some?;
    if IsUpload(operation.value) {
      assert o == UploadSpec(basePath, contentId, operation.value, params.value.file, params.value.node, files, env);
      UploadReturnsFinalizeResponse(basePath, contentId, operation.value, params.value.file, params.value.node, files, env);
    } else {
      assert o == PublishSpec(basePath, contentId, operation.value, params.value.node, files, clock, env);
      PublishReturnsFinalizeResponse(basePath, contentId, operation.value, params.value.node, files, clock, env);
    }
  }

  // ---------------------------------------------------------------------------
  // Markup files

  /** With both markup files present the type query still answers "json" (no
      error), while reading the markup fails with MULTIPLE_ECML, and getECRFObject
      raises that error before any parser is called. */
  lemma BothMarkupFilesPresent(files: Files, basePath: Path, env: Collaborators)
    requires JsonEcmlFile(basePath) in files && XmlEcmlFile(basePath) in files
    ensures EcmlType(files, basePath) == Json
    ensures FileString(files, basePath) == Err(ClientException(MultipleEcml, "index.json and index.ecml"))
    ensures EcrfObject(files, basePath, env) == Parsed(Err(ClientException(MultipleEcml, "index.json and index.ecml")), [])
  {
  }

  /** With neither markup file there is nothing to parse: the text is "", the
      type is undetermined, and the tree is a fresh empty Plugin, without a parser call. */
  lemma NoMarkupFile(files: Files, basePath: Path, env: Collaborators)
    requires JsonEcmlFile(basePath) !in files && XmlEcmlFile(basePath) !in files
    ensures FileString(files, basePath) == Ok("")
    ensures EcmlType(files, basePath).Name() == ""
    ensures EcrfObject(files, basePath, env) == Parsed(Ok(EmptyPlugin), [])
  {
  }

  /** The case-insensitive dispatch of getECRFObject picks the parser named by the
      markup type: "xml" only for Xml, "json" only for Json. */
  lemma TypeNamesSelectParsers(t: MarkupType)
    ensures EqualsIgnoreCase(t.Name(), "xml") <==> t == Xml
    ensures EqualsIgnoreCase(t.Name(), "json") <==> t == Json
  {
  }

  // ---------------------------------------------------------------------------
  // Publish

  /** Publish without a node is a client error before anything happens. */
  lemma PublishRejectsNullNode(basePath: Path, contentId: string, operation: string,
                               files: Files, clock: nat, env: Collaborators)
    ensures PublishSpec(basePath, contentId, operation, None, files, clock, env)
      == Outcome(Err(InvalidNode), files, None, [])
  {
  }

  /** The compress processor runs only when isCompressRequired is FALSE, that is
      only for a node with a non-blank artifact URL and a blank body; a node
      whose body is non-blank never reaches the compress processor, and the
      artifact is downloaded only for such a node. This is the inverse of what
      the helper's name suggests. */
  lemma PublishBranchIsInverted(basePath: Path, contentId: string, operation: string, node: NodeView,
                                files: Files, clock: nat, env: Collaborators)
    ensures var o := PublishSpec(basePath, contentId, operation, Some(node), files, clock, env);
      RunsCompress(o.trace) ==> !IsCompressRequired(Some(node))
    ensures var o := PublishSpec(basePath, contentId, operation, Some(node), files, clock, env);
      !IsCompressRequired(Some(node)) && EcrfObject(files, basePath, env).result.Ok? ==> RunsCompress(o.trace)
    ensures var o := PublishSpec(basePath, contentId, operation, Some(node), files, clock, env);
      !IsBlank(node.metadata.body) ==> !RunsCompress(o.trace)
    ensures var o := PublishSpec(basePath, contentId, operation, Some(node), files, clock, env);
      Downloads(o.trace) <==> !IsBlank(node.metadata.artifactUrl) && !IsBlank(node.metadata.body)
  {
    var p := PrepareSpec(basePath, contentId, node, files, clock, env);
    PublishUnfolds(basePath, contentId, operation, node, files, clock, env);
    FinalizeAddsNoStage(p.trace, Finalize(operation, FinalizeParams(None, None, None, p.node)));
  }

  /** A finalize call appended to a trace neither runs the compress processor nor downloads. */
  lemma FinalizeAddsNoStage(trace: seq<Call>, call: Call)
    requires call.Finalize?
    ensures RunsCompress(trace + [call]) <==> RunsCompress(trace)
    ensures Downloads(trace + [call]) <==> Downloads(trace)
  {
    if RunsCompress(trace + [call]) {
      var i :| 0 <= i < |trace + [call]| && (trace + [call])[i].RunProcessor? && (trace + [call])[i].stage == Compress;
      assert trace[i].RunProcessor? && trace[i].stage == Compress;
    }
    if Downloads(trace + [call]) {
      var i :| 0 <= i < |trace + [call]| && (trace + [call])[i].Download?;
      assert trace[i].Download?;
    }
    if RunsCompress(trace) {
      var i :| 0 <= i < |trace| && trace[i].RunProcessor? && trace[i].stage == Compress;
      assert (trace + [call])[i].RunProcessor? && (trace + [call])[i].stage == Compress;
    }
    if Downloads(trace) {
      var i :| 0 <= i < |trace| && trace[i].Download?;
      assert (trace + [call])[i].Download?;
    }
  }

  /** The compress branch runs the compress processor on the tree just parsed
      from the markup at the base path. An exception it raises ends publish;
      otherwise finalize gets the node alone, on the processor's file system. */
  lemma PublishCompressOutcome(basePath: Path, contentId: string, operation: string, node: NodeView,
                               files: Files, clock: nat, env: Collaborators, tree: Plugin)
    requires !IsCompressRequired(Some(node))
    requires EcrfObject(files, basePath, env).result == Ok(tree)
    ensures var o := PublishSpec(basePath, contentId, operation, Some(node), files, clock, env);
      var run := EcrfObject(files, basePath, env).calls + [RunProcessor(Compress, tree)];
      var params := FinalizeParams(None, None, None, node);
      match env.runProcessor(Compress, basePath, contentId, tree, files)
      case Err(e) => o == Outcome(Err(e), files, Some(node), run)
      case Ok((_, after)) =>
        o == Outcome(env.finalize(operation, contentId, params, after), after, Some(node), run + [Finalize(operation, params)])
  {
  }

  /** A markup-read or parse exception in the compress branch ends publish with
      that exception: no processor runs and finalize is not called. */
  lemma PublishMarkupErrorStops(basePath: Path, contentId: string, operation: string, node: NodeView,
                                files: Files, clock: nat, env: Collaborators, e: Failure)
    requires !IsCompressRequired(Some(node))
    requires EcrfObject(files, basePath, env).result == Err(e)
    ensures PublishSpec(basePath, contentId, operation, Some(node), files, clock, env)
      == Outcome(Err(e), files, Some(node), EcrfObject(files, basePath, env).calls)
  {
  }

  /** Where the compress processor runs, the node's metadata is left untouched. */
  lemma CompressLeavesMetadata(basePath: Path, contentId: string, operation: string, node: NodeView,
                               files: Files, clock: nat, env: Collaborators)
    requires !IsCompressRequired(Some(node))
    ensures PublishSpec(basePath, contentId, operation, Some(node), files, clock, env).node == Some(node)
  {
  }

  /** When the artifact branch downloads a regular file, it is renamed (if the
      operating system accepts) to the composed name in its own directory, and
      the node's downloadUrl is set to that file whether or not the rename took
      place; nothing else in the metadata changes. */
  lemma PublishRenamesDownloadedArtifact(basePath: Path, contentId: string, operation: string, node: NodeView,
                                         files: Files, clock: nat, env: Collaborators, artifact: Path, fetched: Files)
    requires IsCompressRequired(Some(node)) && !IsBlank(node.metadata.artifactUrl)
    requires env.download(node.metadata.artifactUrl.value, basePath, files) == (Some(artifact), fetched)
    requires artifact in fetched && fetched[artifact].RegularFile?
    ensures var o := PublishSpec(basePath, contentId, operation, Some(node), files, clock, env);
      var ecar := RenamedPath(artifact, env.makeSlug(node.metadata.name), clock, node.identifier);
      var updated := node.(metadata := node.metadata.(downloadUrl := Some(ecar)));
      && o.node == Some(updated)
      && o.files == (if env.renameAccepted(fetched, artifact, ecar) then Moved(fetched, artifact, ecar) else fetched)
      && o.trace == [Download(node.metadata.artifactUrl.value, basePath), RenameTo(artifact, ecar),
                     Finalize(operation, FinalizeParams(None, None, None, updated))]
  {
    var p := ArtifactSpec(basePath, node, files, clock, env);
    assert PrepareSpec(basePath, contentId, node, files, clock, env) == p;
    var ecar := RenamedPath(artifact, env.makeSlug(node.metadata.name), clock, node.identifier);
    assert p.trace == [Download(node.metadata.artifactUrl.value, basePath), RenameTo(artifact, ecar)];
  }

  /** With compression required and a blank artifact URL, publish only calls
      finalize, with the node alone, on the file system as it was. */
  lemma PublishWithoutArtifactOnlyFinalizes(basePath: Path, contentId: string, operation: string, node: NodeView,
                                            files: Files, clock: nat, env: Collaborators)
    requires IsCompressRequired(Some(node)) && IsBlank(node.metadata.artifactUrl)
    ensures var params := FinalizeParams(None, None, None, node);
      PublishSpec(basePath, contentId, operation, Some(node), files, clock, env)
        == Outcome(env.finalize(operation, contentId, params, files), files, Some(node), [Finalize(operation, params)])
  {
  }

  /** When the download does not deliver a regular file, nothing is renamed and
      the node is untouched: finalize runs on the file system the download left. */
  lemma PublishSkipsUnusableDownload(basePath: Path, contentId: string, operation: string, node: NodeView,
                                     files: Files, clock: nat, env: Collaborators,
                                     downloaded: Option<Path>, fetched: Files)
    requires IsCompressRequired(Some(node)) && !IsBlank(node.metadata.artifactUrl)
    requires env.download(node.metadata.artifactUrl.value, basePath, files) == (downloaded, fetched)
    requires !IsRegularFile(fetched, downloaded)
    ensures var params := FinalizeParams(None, None, None, node);
      PublishSpec(basePath, contentId, operation, Some(node), files, clock, env)
        == Outcome(env.finalize(operation, contentId, params, fetched), fetched, Some(node),
                   [Download(node.metadata.artifactUrl.value, basePath), Finalize(operation, params)])
  {
  }

  /** On every other publish path the node's metadata is unchanged. */
  lemma PublishOtherwiseLeavesMetadata(basePath: Path, contentId: string, operation: string, node: NodeView,
                                       files: Files, clock: nat, env: Collaborators)
    requires !(IsCompressRequired(Some(node)) && !IsBlank(node.metadata.artifactUrl)
               && var (downloaded, fetched) := env.download(node.metadata.artifactUrl.value, basePath, files);
                  IsRegularFile(fetched, downloaded))
    ensures PublishSpec(basePath, contentId, operation, Some(node), files, clock, env).node == Some(node)
  {
  }

  /** Publish hands finalize the node alone (as it stands after the artifact
      branch): no tree, no file, no markup type. */
  lemma PublishFinalizesWithNodeOnly(basePath: Path, contentId: string, operation: string, node: Option<NodeView>,
                                     files: Files, clock: nat, env: Collaborators, i: nat)
    requires var o := PublishSpec(basePath, contentId, operation, node, files, clock, env);
      i < |o.trace| && o.trace[i].Finalize?
    ensures var o := PublishSpec(basePath, contentId, operation, node, files, clock, env);
      o.trace[i].params == FinalizeParams(None, None, None, o.node.value)
  {
    var o := PublishSpec(basePath, contentId, operation, node, files, clock, env);
    PublishInOrder(basePath, contentId, operation, node, files, clock, env);
    FinalizeOnlyLast(o.trace, i);
    PublishReturnsFinalizeResponse(basePath, contentId, operation, node, files, clock, env);
  }

  // ---------------------------------------------------------------------------
  // The renamed artifact

  /** The renamed artifact stays in the directory the download put it in, and its
      name is slug_millis_identifier.extension, where millis is read back from its
      decimal rendering and the extension is the downloaded file's. */
  lemma RenamedPathShape(artifact: Path, slug: string, millis: nat, identifier: string)
    requires Parent(artifact).Some?
    requires Separator !in slug && Separator !in identifier
    ensures var ecar := RenamedPath(artifact, slug, millis, Some(identifier));
      && Parent(ecar) == Parent(artifact)
      && Name(ecar) == slug + "_" + DecimalString(millis) + "_" + identifier + "." + Extension(artifact)
      && Extension(ecar) == Extension(artifact)
  {
    var ext := Extension(artifact);
    var stem := slug + "_" + DecimalString(millis) + "_" + identifier;
    var name := stem + "." + ext;
    DigitsHaveNoPunctuation(DecimalString(millis));
    assert Separator !in name by {
      assert name == slug + "_" + DecimalString(millis) + "_" + identifier + "." + ext;
    }
    ParentOfJoin(Parent(artifact).value, name);
    var directory := Parent(artifact).value;
    assert Join(directory, name) == (directory + [Separator] + stem) + ['.'] + ext;
    ExtensionAfterDot(directory + [Separator] + stem, ext);
  }
}
