# Content workflow initializer, modelled in Dafny

This project models `InitializePipeline`, the entry point of the content
workflow pipeline. The pipeline takes an uploaded content package (a ZIP
archive whose markup file describes interactive content). It validates and
unpacks the package, parses the markup (`index.json` or `index.ecml`) into a
content tree (the ECRF, a `Plugin`), runs a processor on the tree, and hands
the result to the finalizer.

The model covers:

- the constructor's checks on the base path and content id;
- `init`'s dispatch on the operation:
  - `upload`/`UPLOAD`: validate, unzip into the base path, read and parse the markup, run the `extract` processor, finalize;
  - `publish`/`PUBLISH`: either run the `compress` processor, or download the artifact, rename it and record its `downloadUrl`; then finalize;
  - any other operation: a silent no-op;
- the compress decision (`isCompressRequired`);
- the markup-file queries (`getECMLType`, `getFileString`, `getECRFObject`);
- the name given to the downloaded artifact.

Files:

- `wrappers.dfy`: `Option` (Java's null) and `Result` (a value or the exception raised).
- `text.dfy`: the string operations used. These are `StringUtils.isBlank` and `equalsIgnoreCase`, `String.lastIndexOf`, Java's rendering of `null` in a concatenation, and the decimal rendering of a `long`, with its round trip.
- `paths.dfy`: Unix paths. Covers `File.getParent` (with its root-prefix rule), `File.getName`, `FilenameUtils.getExtension`, and lemmas about joining a directory and a name.
- `workflow.dfy`: the entities and the environment.
  - The file system is a class whose `entries` map is reassigned.
  - The content node is a class whose `metadata` is updated in place.
  - Also here: the content tree, the response, the exceptions and the markup types.
  - `Collaborators` holds the code this model does not contain, as functions of their arguments and of the file system. That code is the validator, unzip, the two parsers, the processors, the download, the slug, whether the OS accepts a rename, and the finalizer.
  - `Call` is one entry of the trace of calls into the environment.
- `initializer.dfy`: the read-only queries as functions of the file system's value, and the specification functions `InitSpec`, `UploadSpec`, `PublishSpec`, `CompressSpec` and `ArtifactSpec`. It also holds the class `InitializePipeline`. Its static method `Create` checks the constructor's arguments and changes nothing. `ExtractContentPackage` unzips into the base path, and its contract states the new file system directly. `Init`, `Upload`, `Publish`, `RunCompress` and `ReuseArtifact` change the file system, and `Init`, `Publish` and `ReuseArtifact` also change the node. Each of these five is proved to produce exactly the outcome of its specification function: the response or exception, the new file system, the new node and the trace.
- `initializer_properties.dfy`: the properties, as lemmas over the specification functions.

The clock (`System.currentTimeMillis`) is the `clock` parameter of `Init`.

## The publish branch, as written

The source runs the `compress` processor when `isCompressRequired(node)` is
false. That is exactly the case of a non-blank `artifactUrl` and a blank
`body`. In every other case it goes to the artifact branch. There it downloads
and renames the artifact, which can only happen when both the `artifactUrl` and
the `body` are non-blank.

The comment above that branch (line 106) says it tests whether compression is
needed, and the helper's name says the same: both suggest the opposite. The model follows the code.
`PublishBranchIsInverted` states the inversion outright.

When both markup files are present, `getECMLType` answers `json` without
error, and only `getFileString` raises `MULTIPLE_ECML`. `BothMarkupFilesPresent`
states both answers, and that `getECRFObject` raises that error before any
parser is called.

## Model

| member | source | states |
|---|---|---|
| Initializer.InitializePipeline.Create | platform-modules/manager/src/main/java/com/ilimi/taxonomy/content/initializer/InitializePipeline.java:43-52 | a base path that does not exist raises INVALID_PARAMETER "Path does not Exist."; otherwise a blank content id raises INVALID_PARAMETER "Invalid Content Id."; otherwise a fresh pipeline stores both unchanged |
| Initializer.IsValidBasePath | platform-modules/manager/src/main/java/com/ilimi/taxonomy/content/initializer/InitializePipeline.java:44 | a null base path is never valid; a given one is valid exactly when it exists in the file system |
| Initializer.InitializePipeline.Init | platform-modules/manager/src/main/java/com/ilimi/taxonomy/content/initializer/InitializePipeline.java:54-148 | the result, the file system, the node and the calls made are those of `InitSpec` for the old file system and node |
| Initializer.InitSpec | platform-modules/manager/src/main/java/com/ilimi/taxonomy/content/initializer/InitializePipeline.java:54-148 | only a non-blank upload or publish operation (in the four exact spellings) with a parameter map reaches the environment; a run with no call leaves the file system and the node as they were |
| Initializer.InitializePipeline.Upload | platform-modules/manager/src/main/java/com/ilimi/taxonomy/content/initializer/InitializePipeline.java:61-96 | the upload case produces exactly `UploadSpec`'s outcome, changing only the file system |
| Initializer.UploadSpec | platform-modules/manager/src/main/java/com/ilimi/taxonomy/content/initializer/InitializePipeline.java:61-96 | upload makes no call exactly when the file is null or missing or the node is null, and then raises and changes nothing; otherwise its first call validates the file |
| Initializer.InitializePipeline.Publish | platform-modules/manager/src/main/java/com/ilimi/taxonomy/content/initializer/InitializePipeline.java:98-140 | the publish case produces exactly `PublishSpec`'s outcome: result, file system, node metadata, calls |
| Initializer.PublishSpec | platform-modules/manager/src/main/java/com/ilimi/taxonomy/content/initializer/InitializePipeline.java:98-140 | publish changes at most the node's downloadUrl, never its identifier or other metadata, and returns a node exactly when it was given one; a successful publish ends with a finalize call |
| Initializer.InitializePipeline.RunCompress | platform-modules/manager/src/main/java/com/ilimi/taxonomy/content/initializer/InitializePipeline.java:107-117 | the failure, file system and calls are exactly `CompressSpec`'s for the old file system |
| Initializer.CompressSpec | platform-modules/manager/src/main/java/com/ilimi/taxonomy/content/initializer/InitializePipeline.java:107-117 | the node is untouched; every processor call is the compress stage on the tree just parsed from the markup at the base path; a success ends with that call; an exception leaves the file system as it was |
| Initializer.InitializePipeline.ReuseArtifact | platform-modules/manager/src/main/java/com/ilimi/taxonomy/content/initializer/InitializePipeline.java:118-131 | download the artifact; when a regular file arrives, rename it to `RenamedPath` and set the node's downloadUrl to it; nothing else in the node changes |
| Initializer.RenamedPath | platform-modules/manager/src/main/java/com/ilimi/taxonomy/content/initializer/InitializePipeline.java:124-127 | the new path starts with the artifact's parent directory (Java's "null" when it has none) and a separator, and ends with a dot and the artifact's extension |
| Workflow.FileSystem.RenameTo | platform-modules/manager/src/main/java/com/ilimi/taxonomy/content/initializer/InitializePipeline.java:128 | the rename happens exactly when the OS accepts it and the source exists; then the target holds the source's entry and the source is gone; otherwise nothing changes |
| Initializer.ArtifactSpec | platform-modules/manager/src/main/java/com/ilimi/taxonomy/content/initializer/InitializePipeline.java:121-131 | the artifact branch never raises; it downloads the artifact URL into the base path, then renames exactly when the download left a regular file; otherwise the node is untouched and the file system is the one the download left |
| Initializer.PrepareSpec | platform-modules/manager/src/main/java/com/ilimi/taxonomy/content/initializer/InitializePipeline.java:107-132 | the compress processor runs exactly when isCompressRequired is false and the markup was read and parsed; a download happens exactly when isCompressRequired is true and the artifact URL is non-blank |
| Initializer.InitializePipeline.ExtractContentPackage | platform-modules/manager/src/main/java/com/ilimi/taxonomy/content/initializer/InitializePipeline.java:185-193 | unzip into the base path; an I/O failure is a ZIP_EXTRACTION server exception and leaves the file system as it was |
| Initializer.IsCompressRequired | platform-modules/manager/src/main/java/com/ilimi/taxonomy/content/initializer/InitializePipeline.java:150-159 | not required exactly when the node is present, its artifactUrl is non-blank and its body is blank; a null node requires compression |
| Initializer.EcmlType | platform-modules/manager/src/main/java/com/ilimi/taxonomy/content/initializer/InitializePipeline.java:175-183 | json exactly when index.json exists; xml exactly when only index.ecml exists; undetermined when neither does |
| Initializer.FileString | platform-modules/manager/src/main/java/com/ilimi/taxonomy/content/initializer/InitializePipeline.java:195-215 | both files: MULTIPLE_ECML client error; neither: ""; otherwise the existing file's text, or an ECML_FILE_READ server error when it cannot be read |
| Initializer.EcrfObject | platform-modules/manager/src/main/java/com/ilimi/taxonomy/content/initializer/InitializePipeline.java:161-173 | a markup-read error is returned with no parser call; otherwise xml text goes to the XML parser only, json text to the JSON parser only, and with no markup the tree is a fresh empty Plugin |
| Initializer.ReadFileToString | platform-modules/manager/src/main/java/com/ilimi/taxonomy/content/initializer/InitializePipeline.java:203-213 | reading succeeds exactly for a readable regular file and yields its text; a directory or an unreadable file gives the ECML_FILE_READ server exception |
| InitializerProperties.BlankOperationRejected | platform-modules/manager/src/main/java/com/ilimi/taxonomy/content/initializer/InitializePipeline.java:55-58 | a blank or null operation raises INVALID_PARAMETER with no call and no change to the file system or node |
| InitializerProperties.UnrecognisedOperationIsNoOp | platform-modules/manager/src/main/java/com/ilimi/taxonomy/content/initializer/InitializePipeline.java:59-147 | for a non-blank operation: the parameter map is null or the operation is not one of the four exact spellings, if and only if init returns the empty Response with no call; in that case nothing changes |
| InitializerProperties.InitDispatches | platform-modules/manager/src/main/java/com/ilimi/taxonomy/content/initializer/InitializePipeline.java:60-99 | init hands "upload" and "UPLOAD" to the upload case and "publish" and "PUBLISH" to the publish case, with the map's file and node |
| InitializerProperties.UploadIsRejectedOrCalls | platform-modules/manager/src/main/java/com/ilimi/taxonomy/content/initializer/InitializePipeline.java:61-96 | an upload either raises or makes at least one call |
| InitializerProperties.PublishIsRejectedOrCalls | platform-modules/manager/src/main/java/com/ilimi/taxonomy/content/initializer/InitializePipeline.java:98-140 | a publish either raises or makes at least one call |
| InitializerProperties.MixedCaseUploadFallsThrough | platform-modules/manager/src/main/java/com/ilimi/taxonomy/content/initializer/InitializePipeline.java:60-143 | the operation "Upload" is the no-op: empty Response, no call, nothing changed |
| InitializerProperties.UploadRejectsMissingArguments | platform-modules/manager/src/main/java/com/ilimi/taxonomy/content/initializer/InitializePipeline.java:63-70 | a null or missing file (checked first), then a null node, raise INVALID_PARAMETER before any validation, extraction or processing, changing nothing |
| InitializerProperties.UploadInvalidPackageSkipped | platform-modules/manager/src/main/java/com/ilimi/taxonomy/content/initializer/InitializePipeline.java:71-95 | an invalid package: only the validator is called, nothing changes, and the empty Response is returned |
| InitializerProperties.UploadExtractionFailure | platform-modules/manager/src/main/java/com/ilimi/taxonomy/content/initializer/InitializePipeline.java:72-74 | a failed unzip raises ZIP_EXTRACTION after validate and unzip; nothing is parsed, processed or finalized |
| InitializerProperties.UploadStageOrder | platform-modules/manager/src/main/java/com/ilimi/taxonomy/content/initializer/InitializePipeline.java:71-94 | with every stage succeeding the calls are validate, unzip into basePath, the parse of the extracted markup, extract processor on the parsed tree, finalize with {ecrf = processor output, file, ecmlType, node}; finalize's response is returned verbatim |
| InitializerProperties.UploadMarkupErrorStops | platform-modules/manager/src/main/java/com/ilimi/taxonomy/content/initializer/InitializePipeline.java:76-77 | after a successful unzip, a markup-read or parse exception is what upload raises, with the extracted file system, after validate, unzip and the parse; no processor and no finalize |
| InitializerProperties.UploadProcessorErrorStops | platform-modules/manager/src/main/java/com/ilimi/taxonomy/content/initializer/InitializePipeline.java:79-84 | an exception of the extract processor is what upload raises, after the processor call and before finalize |
| InitializerProperties.UploadLeavesNodeUnchanged | platform-modules/manager/src/main/java/com/ilimi/taxonomy/content/initializer/InitializePipeline.java:61-96 | upload never changes the node |
| InitializerProperties.StagesRunInFixedOrder | platform-modules/manager/src/main/java/com/ilimi/taxonomy/content/initializer/InitializePipeline.java:54-148 | every run calls the environment in one fixed order (validate, unzip, parse, processor, download, rename, finalize), each at most once |
| InitializerProperties.FinalizeIsLastAndReturnedVerbatim | platform-modules/manager/src/main/java/com/ilimi/taxonomy/content/initializer/InitializePipeline.java:87-138 | a finalize call is always the last call, and init returns finalize's response unchanged |
| InitializerProperties.BothMarkupFilesPresent | platform-modules/manager/src/main/java/com/ilimi/taxonomy/content/initializer/InitializePipeline.java:161-215 | with both markup files present the type is json (no error), reading fails with MULTIPLE_ECML, and getECRFObject fails with it before any parser call |
| InitializerProperties.NoMarkupFile | platform-modules/manager/src/main/java/com/ilimi/taxonomy/content/initializer/InitializePipeline.java:161-215 | with no markup file the text is "", the type name is "", and the tree is a fresh empty Plugin with no parser call |
| InitializerProperties.TypeNamesSelectParsers | platform-modules/manager/src/main/java/com/ilimi/taxonomy/content/initializer/InitializePipeline.java:165-171 | the case-insensitive comparison selects the XML parser exactly for the xml type and the JSON parser exactly for the json type |
| InitializerProperties.PublishRejectsNullNode | platform-modules/manager/src/main/java/com/ilimi/taxonomy/content/initializer/InitializePipeline.java:100-103 | publish without a node raises INVALID_PARAMETER with no call and no change |
| InitializerProperties.PublishBranchIsInverted | platform-modules/manager/src/main/java/com/ilimi/taxonomy/content/initializer/InitializePipeline.java:106-159 | the compress processor runs only when isCompressRequired is false, and does run then unless the markup cannot be read or parsed; a non-blank body never reaches it; a download happens if and only if both artifactUrl and body are non-blank |
| InitializerProperties.PublishCompressOutcome | platform-modules/manager/src/main/java/com/ilimi/taxonomy/content/initializer/InitializePipeline.java:107-138 | in the compress branch, the compress processor runs on the freshly parsed tree; its exception ends publish; otherwise finalize gets the node alone on the processor's file system and its response is returned |
| InitializerProperties.PublishMarkupErrorStops | platform-modules/manager/src/main/java/com/ilimi/taxonomy/content/initializer/InitializePipeline.java:107-110 | in the compress branch, a markup-read or parse exception is what publish raises, with nothing else called and nothing changed |
| InitializerProperties.CompressLeavesMetadata | platform-modules/manager/src/main/java/com/ilimi/taxonomy/content/initializer/InitializePipeline.java:107-117 | when the compress branch is taken the node is unchanged |
| InitializerProperties.PublishRenamesDownloadedArtifact | platform-modules/manager/src/main/java/com/ilimi/taxonomy/content/initializer/InitializePipeline.java:118-138 | a downloaded regular file is renamed to `RenamedPath` if the OS accepts; downloadUrl is set to that path either way; no other metadata changes; the calls are download, rename, finalize with the updated node |
| InitializerProperties.PublishWithoutArtifactOnlyFinalizes | platform-modules/manager/src/main/java/com/ilimi/taxonomy/content/initializer/InitializePipeline.java:118-138 | with compression required and a blank artifact URL, publish calls only finalize, with the node alone, on the unchanged file system, and returns its response |
| InitializerProperties.PublishSkipsUnusableDownload | platform-modules/manager/src/main/java/com/ilimi/taxonomy/content/initializer/InitializePipeline.java:121-138 | when the download does not leave a regular file, nothing is renamed, the node is untouched, and finalize runs on the file system the download left |
| InitializerProperties.PublishOtherwiseLeavesMetadata | platform-modules/manager/src/main/java/com/ilimi/taxonomy/content/initializer/InitializePipeline.java:118-132 | on every publish path other than a downloaded regular file the node's metadata is unchanged |
| InitializerProperties.PublishFinalizesWithNodeOnly | platform-modules/manager/src/main/java/com/ilimi/taxonomy/content/initializer/InitializePipeline.java:134-138 | publish's finalize receives the node alone (as left by the artifact branch): no tree, no file, no markup type |
| InitializerProperties.RenamedPathShape | platform-modules/manager/src/main/java/com/ilimi/taxonomy/content/initializer/InitializePipeline.java:124-128 | the renamed artifact keeps the downloaded file's directory and extension, and its name is slug_millis_identifier.extension |
| Paths.Parent | platform-modules/manager/src/main/java/com/ilimi/taxonomy/content/initializer/InitializePipeline.java:124 | the parent is a proper non-empty prefix of the path; it is null exactly when the path has no separator or is the root |
| Paths.Extension | platform-modules/manager/src/main/java/com/ilimi/taxonomy/content/initializer/InitializePipeline.java:127 | the extension is a suffix of the path with no dot or separator, preceded by a dot when non-empty |
| Paths.ExtensionAfterDot | platform-modules/manager/src/main/java/com/ilimi/taxonomy/content/initializer/InitializePipeline.java:124-127 | a dot-free, separator-free text appended after a dot is read back as the extension |
| Paths.ParentOfJoin | platform-modules/manager/src/main/java/com/ilimi/taxonomy/content/initializer/InitializePipeline.java:124-125 | joining a non-empty directory with a separator-free name gives back that directory as parent and that name as name |
| Text.DecimalString | platform-modules/manager/src/main/java/com/ilimi/taxonomy/content/initializer/InitializePipeline.java:126 | the rendered clock value is a non-empty string of decimal digits without a leading zero |
| Text.DecimalRoundTrip | platform-modules/manager/src/main/java/com/ilimi/taxonomy/content/initializer/InitializePipeline.java:126 | reading the rendered digits back gives the clock value |
| Text.IsBlank | platform-modules/manager/src/main/java/com/ilimi/taxonomy/content/initializer/InitializePipeline.java:56 | StringUtils.isBlank: null, or every character whitespace in Java's sense; the empty string is blank |
| Text.EqualsIgnoreCase | platform-modules/manager/src/main/java/com/ilimi/taxonomy/content/initializer/InitializePipeline.java:165-168 | texts equal ignoring case have the same length, and every text equals itself ignoring case |
| Text.EqualsIgnoreCaseLowered | platform-modules/manager/src/main/java/com/ilimi/taxonomy/content/initializer/InitializePipeline.java:165-168 | two texts are equal ignoring case exactly when their lowered forms are equal |

## Left out

- `AuditHistoryManager` and the Cordova `PlatformService` bridge: they are outside the initializer. One is a thin wrapper over a search-index service; the other is plugin plumbing.
- The internals of the collaborators are not part of this model. These are the content validator, unzip, the XML and JSON content parsers, the `extract` and `compress` processors, the HTTP download, `Slug.makeSlug` and the finalizer. Each is a function of its arguments and of the file system, given in `Collaborators`.
  - The parsers, processors and finalizer may raise any exception, which propagates unchanged.
  - Unzip fails only with the I/O error that becomes ZIP_EXTRACTION.
  - The validator, download and slug are total.
- Side effects that a failing unzip or processor leaves on disk are not modelled. A failure is modelled as leaving the file system as it was before that call.
- The finalizer's own side effects on the node or the file system are not modelled, and nor is the persistence it performs.
- `isValidBasePath` belongs to the `BasePipeline` superclass, which is not part of this model. `Initializer.InitializePipeline.Create` models it as "the base path is given and exists in the file system".
- Logging has no behaviour and is left out.
- A node whose metadata map is null: publish reads the artifact URL (line 104) and `isCompressRequired` reads it again (line 153) with no null check, so such a node raises a `NullPointerException`. The model's `Metadata` is a record that is always present, so that exception path is not modelled.
- The casts of `parameterMap` entries and of metadata values are not modelled. The parameter map is a record of an optional file and a nullable node. The metadata is a record of the keys the initializer uses plus the other keys. A `ClassCastException` on a value of the wrong type is not modelled.
- Paths are Unix paths, already normalised and absolute, so `getAbsolutePath` returns the path unchanged. `java.io.File`'s collapsing of a doubled separator and `FilenameUtils`' Windows-only alternate-data-stream check are not modelled.
- `Text.EqualsIgnoreCase` folds ASCII letters only. The only strings it compares are the lowercase type names, so Unicode case folding makes no difference.
- `System.currentTimeMillis` is a non-negative `nat` parameter of `Init`. The `long` range is not modelled.
- Concurrency: the initializer is single-threaded and assumes its caller does not share the node or the working directory.

