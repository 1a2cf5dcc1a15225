# CDAP: flow topology builder, Dataproc launcher helpers, HBase 0.94 names, artifact reader choice

A Dafny model of four small, sequential pieces of CDAP, with their properties proved.

- **Flow topology builder** (`FlowSpecification.Builder` and its `Connector`, plus
  `FlowletDefinition.inspectFlowlet`). The builder collects a flow's name and description,
  a map from flowlet name to flowlet definition, the set of stream names some flowlet
  accepts, and a list of stream connections. Adding a flowlet inspects its class hierarchy:
  - `OutputEmitter<T>` fields give the flowlet's outputs; the first declaration of a name wins.
  - Process methods give its inputs; a later registration of a name overwrites an earlier one.

  Reflection is replaced by a description of each class level: its fields and its methods.
  A type is reduced to `StreamEvent` or some other class.
  `Builder` and `Connector` are classes whose methods update their fields in place.
  `inspectFlowlet` is a method with loops, proved equal to a fold function about which the
  inference rules are proved.
- **Dataproc launcher helpers** (`DataprocJobMain`):
  - the argument-count check of `main`;
  - `getFileExtension`;
  - the zip/jar dispatch of `unpack`;
  - the exact order of the launcher classpath that `getClasspath`, `createClassPathURLs` and
    `addJarURLs` build.

  The file system is replaced by its answers: a map from directory path to the file names
  `listFiles()` returns, with an absent path standing for `null`.
- **HBase 0.94 table-name conversion** (`HTable94NameConverter`). `fromTableName` splits at
  the first '.' and tests the leading part for '_'; `toTableName` formats a name the other way;
  `getSysConfigTablePrefix` ignores its argument. The inherited helpers `getHBaseTableName` and
  `toHBaseNamespace` are function parameters, and the CDAP constants are a record parameter.
  Nothing is assumed about any of them.
- **Artifact reader selection** (`ReadArtifactRepositoryReaderFactory.create`): a
  case-insensitive choice between the remote (NoSQL) and the local (SQL) reader, with errors
  for a missing value and an unsupported one. The two storage constants are parameters.

Java exceptions become `Result`/`Outcome` error values. A Java `null` becomes `Option.None`.

Files:
- `wrappers.dfy`: `Option`, `Result`, `Outcome`.
- `flowlet_inspection.dfy`: modules `FlowletInspection` (the inference and its loops) and
  `FlowletInspectionFacts` (its properties).
- `flow_specification.dfy`: module `FlowSpecification` (the builder classes).
- `dataproc_job_main.dfy`: module `DataprocJobMain`.
- `htable94_name_converter.dfy`: module `HTable94NameConverter`.
- `artifact_reader_factory.dfy`: module `ArtifactReaderFactory`.

## Model

| member | source | states |
|---|---|---|
| FlowletInspection.PutAll | src/api/java/com/continuuity/api/flow/FlowSpecification.java:224-226 | putting every name with one type: the keys become the old keys plus the names, every name maps to the type, every other key keeps its value |
| FlowletInspection.InspectFlowlet | src/api/java/com/continuuity/api/flow/FlowSpecification.java:181-230 | the hierarchy walk, filling both maps in place, yields exactly `Inspect(levels)`: the same maps, or the first error raised |
| FlowletInspection.ScanFields | src/api/java/com/continuuity/api/flow/FlowSpecification.java:190-206 | the fields loop of one level computes the outputs fold, stopping at an emitter with no type argument |
| FlowletInspection.ScanMethods | src/api/java/com/continuuity/api/flow/FlowSpecification.java:209-228 | the methods loop of one level, with its inner loop over `@Process` names, computes the inputs fold, stopping at a process method without parameters |
| FlowletInspection.CollectOutputsPrefixError | src/api/java/com/continuuity/api/flow/FlowSpecification.java:196-197 | an error raised on some field ends the outputs scan of the level with that error |
| FlowletInspection.CollectInputsPrefixError | src/api/java/com/continuuity/api/flow/FlowSpecification.java:216-217 | an error raised on some method ends the inputs scan of the level with that error |
| FlowletInspection.InspectLevelsPrefixError | src/api/java/com/continuuity/api/flow/FlowSpecification.java:187-229 | an error raised at some class level ends the whole inspection with that error |
| FlowletInspectionFacts.CollectOutputsSucceeds | src/api/java/com/continuuity/api/flow/FlowSpecification.java:190-197 | the outputs scan succeeds iff every `OutputEmitter` field is parameterized |
| FlowletInspectionFacts.CollectInputsSucceeds | src/api/java/com/continuuity/api/flow/FlowSpecification.java:209-217 | the inputs scan succeeds iff every process method (prefix `process` or `@Process`) has a parameter |
| FlowletInspectionFacts.CollectOutputsFirstWins | src/api/java/com/continuuity/api/flow/FlowSpecification.java:199-205 | output names are the earlier names plus every emitter's `@DataSet` value or "out"; earlier entries are kept, and a new name gets the type of its first emitter |
| FlowletInspectionFacts.CollectInputsKeys | src/api/java/com/continuuity/api/flow/FlowSpecification.java:219-227 | input names are the earlier names plus every name a process method registers ("" when it names none) |
| FlowletInspectionFacts.CollectInputsLastWins | src/api/java/com/continuuity/api/flow/FlowSpecification.java:219-227 | a name no method registers keeps its earlier type; a registered name gets the first parameter type of the last method registering it |
| FlowletInspectionFacts.CollectOutputsAppend | src/api/java/com/continuuity/api/flow/FlowSpecification.java:187-206 | scanning two runs of fields one after the other equals scanning them joined, the map carried across |
| FlowletInspectionFacts.CollectInputsAppend | src/api/java/com/continuuity/api/flow/FlowSpecification.java:187-228 | scanning two runs of methods one after the other equals scanning them joined, the map carried across |
| FlowletInspectionFacts.InspectLevelsFlatten | src/api/java/com/continuuity/api/flow/FlowSpecification.java:187-229 | the level walk succeeds iff the outputs scan over all fields and the inputs scan over all methods of the hierarchy both succeed, and it then yields their two maps (which error is raised first may differ) |
| FlowletInspectionFacts.InspectSucceeds | src/api/java/com/continuuity/api/flow/FlowSpecification.java:190-217 | inspection succeeds iff, at every level, every emitter is parameterized and every process method has a parameter |
| FlowletInspectionFacts.InspectOutputsFirstWins | src/api/java/com/continuuity/api/flow/FlowSpecification.java:187-205 | the outputs are exactly the emitters' names, each typed by its first emitter, most derived class first |
| FlowletInspectionFacts.InspectInputsLastWins | src/api/java/com/continuuity/api/flow/FlowSpecification.java:187-228 | the inputs are exactly the registered names, each typed by the last registering process method, so a superclass's method overrides a subclass's |
| FlowletInspectionFacts.UnnamedProcessIsAnyInput | src/api/java/com/continuuity/api/flow/FlowSpecification.java:221-222 | a process method without `@Process` names, or with an empty list, puts the any-input name "" among the inputs |
| FlowSpecification.NewDefinition | src/api/java/com/continuuity/api/flow/FlowSpecification.java:390-401 | a definition is made iff the flowlet is non-null, instances > 0, inspection succeeds and the name is new, with each failure in the source's check order; the definition carries the name, instances ≥ 1, the resources and the inspected maps |
| FlowSpecification.StreamConnection | src/api/java/com/continuuity/api/flow/FlowSpecification.java:522-532 | the target input is the stream's name if the flowlet has it, else ""; the connection is made iff that input exists and is StreamEvent-typed, and it is STREAM, from "", to the target, with the stream as source output |
| FlowSpecification.AddKeepsTopology | src/api/java/com/continuuity/api/flow/FlowSpecification.java:398-401 | adding a flowlet under a fresh name loses no accepted stream input and keeps every existing connection valid |
| FlowSpecification.Builder.constructor | src/api/java/com/continuuity/api/flow/FlowSpecification.java:300-305 | a new builder has no name or description and empty streams, flowlets and connections |
| FlowSpecification.Builder.SetName | src/api/java/com/continuuity/api/flow/FlowSpecification.java:312-316 | rejects null; otherwise stores the name; nothing else changes |
| FlowSpecification.Builder.SetDescription | src/api/java/com/continuuity/api/flow/FlowSpecification.java:327-331 | rejects null; otherwise stores the description; nothing else changes |
| FlowSpecification.Builder.Add | src/api/java/com/continuuity/api/flow/FlowSpecification.java:390-404 | on success the map gains exactly the new definition under its name; on any failure the map is unchanged; all other state is unchanged; the builder invariant (instances ≥ 1, keys are names) is kept |
| FlowSpecification.Builder.AddOne | src/api/java/com/continuuity/api/flow/FlowSpecification.java:379-381 | behaves exactly as `Add` with one instance |
| FlowSpecification.Builder.Connect | src/api/java/com/continuuity/api/flow/FlowSpecification.java:411-421 | the stream set only grows, by exactly the StreamEvent-typed input names of all defined flowlets; a fresh connector has no source |
| FlowSpecification.Builder.AddStreamNames | src/api/java/com/continuuity/api/flow/FlowSpecification.java:414-418 | adds exactly one flowlet's StreamEvent-typed input names to the stream set |
| FlowSpecification.Connector.constructor | src/api/java/com/continuuity/api/flow/FlowSpecification.java:469-472 | a connector writes into its builder and starts with neither source set |
| FlowSpecification.Connector.FromFlowlet | src/api/java/com/continuuity/api/flow/FlowSpecification.java:480-489 | succeeds iff the flowlet is non-null and defined; then the flowlet is the source and the stream source is cleared; at most one source is set |
| FlowSpecification.Connector.FromStream | src/api/java/com/continuuity/api/flow/FlowSpecification.java:497-507 | succeeds iff the stream is non-null and its name or "" is an accepted stream; then the stream is the source and the flowlet source is cleared; at most one source is set |
| FlowSpecification.Connector.To | src/api/java/com/continuuity/api/flow/FlowSpecification.java:515-543 | the target must be non-null and defined; from a stream, exactly the `StreamConnection` is appended or its error returned; from a flowlet, or on failure, the connections are unchanged; every connection stays valid |
| FlowSpecification.Connector.Build | src/api/java/com/continuuity/api/flow/FlowSpecification.java:546-549 | the flow holds the builder's name, description, flowlets and connections; every flowlet has instances ≥ 1 and every connection feeds a StreamEvent input of a defined flowlet |
| DataprocJobMain.ParseArgs | cdap-runtime-ext-dataproc/src/main/java/io/cdap/cdap/runtime/spi/runtimejob/DataprocJobMain.java:62-68 | fails iff fewer than two arguments; otherwise the first two arguments are the job class name and the Spark compat |
| DataprocJobMain.LastIndexOf | cdap-runtime-ext-dataproc/src/main/java/io/cdap/cdap/runtime/spi/runtimejob/DataprocJobMain.java:221 | the last position of the character, or -1: the character is there and nowhere after it |
| DataprocJobMain.FileExtension | cdap-runtime-ext-dataproc/src/main/java/io/cdap/cdap/runtime/spi/runtimejob/DataprocJobMain.java:220-223 | the extension has no '.'; without a '.' it is the whole name; otherwise the name is a stem, a '.', then the extension |
| DataprocJobMain.UnpackDispatch | cdap-runtime-ext-dataproc/src/main/java/io/cdap/cdap/runtime/spi/runtimejob/DataprocJobMain.java:181-192 | extraction goes ahead iff the extension is exactly "zip" or "jar"; any other extension is an error carrying it |
| DataprocJobMain.AddJarUrls | cdap-runtime-ext-dataproc/src/main/java/io/cdap/cdap/runtime/spi/runtimejob/DataprocJobMain.java:170-178 | appends to the list the URLs of the listed ".jar" names in listing order, and nothing for a null listing |
| DataprocJobMain.CreateClassPathUrls | cdap-runtime-ext-dataproc/src/main/java/io/cdap/cdap/runtime/spi/runtimejob/DataprocJobMain.java:161-168 | the jars of `dir/lib`, then `dir/classes` |
| DataprocJobMain.GetClasspath | cdap-runtime-ext-dataproc/src/main/java/io/cdap/cdap/runtime/spi/runtimejob/DataprocJobMain.java:142-159 | the new entries of all requested jars in request order, then the original URLs unchanged; its length is the sum of the two |
| DataprocJobMain.JarEntriesAppend | cdap-runtime-ext-dataproc/src/main/java/io/cdap/cdap/runtime/spi/runtimejob/DataprocJobMain.java:174-178 | filtering a listing respects concatenation, so jars keep their listing order |
| DataprocJobMain.JarEntriesMembers | cdap-runtime-ext-dataproc/src/main/java/io/cdap/cdap/runtime/spi/runtimejob/DataprocJobMain.java:174-178 | a URL is added iff a listed name ending in ".jar" gives it; no more URLs than names |
| DataprocJobMain.LauncherEntriesAppend | cdap-runtime-ext-dataproc/src/main/java/io/cdap/cdap/runtime/spi/runtimejob/DataprocJobMain.java:145-153 | the entries for two runs of requested jars are those of the first run followed by those of the second |
| DataprocJobMain.LauncherEntriesAt | cdap-runtime-ext-dataproc/src/main/java/io/cdap/cdap/runtime/spi/runtimejob/DataprocJobMain.java:145-153 | the i-th requested jar's block sits between the earlier and later jars' blocks: its directory, then, unless it is the resources jar, its `lib` jars and its `classes` directory |
| DataprocJobMain.LauncherEntriesCover | cdap-runtime-ext-dataproc/src/main/java/io/cdap/cdap/runtime/spi/runtimejob/DataprocJobMain.java:145-148 | every requested jar's directory URL is on the classpath, and there is at least one new entry per requested jar |
| HTable94NameConverter.SplitAtFirstDot | cdap-hbase-compat-0.94/src/main/java/co/cask/cdap/data2/util/hbase/HTable94NameConverter.java:54 | one part (the whole name) iff the name has no '.'; otherwise the dot-free text before the first '.' and the rest, later dots included, which rejoin to the name |
| HTable94NameConverter.FromTableName | cdap-hbase-compat-0.94/src/main/java/co/cask/cdap/data2/util/hbase/HTable94NameConverter.java:52-66 | null is rejected; a leading part without '_' gives the default namespace and the whole name; with '_' and no '.' the qualifier is missing; otherwise namespace + "." + qualifier rebuilds the name |
| HTable94NameConverter.ToTableName | cdap-hbase-compat-0.94/src/main/java/co/cask/cdap/data2/util/hbase/HTable94NameConverter.java:39-47 | null is rejected; the default namespace gives the bare HBase table name, any other namespace its HBase namespace, '.', and that name |
| HTable94NameConverter.SysConfigTablePrefix | cdap-hbase-compat-0.94/src/main/java/co/cask/cdap/data2/util/hbase/HTable94NameConverter.java:30-32 | whatever the argument, the HBase namespace prefix, then the system namespace, then a final '.' |
| HTable94NameConverter.SplitJoined | cdap-hbase-compat-0.94/src/main/java/co/cask/cdap/data2/util/hbase/HTable94NameConverter.java:54 | splitting `lead + "." + rest` with a dot-free `lead` gives back `lead` and `rest` |
| HTable94NameConverter.FromToNonDefault | cdap-hbase-compat-0.94/src/main/java/co/cask/cdap/data2/util/hbase/HTable94NameConverter.java:39-66 | a non-default table whose HBase namespace has a '_' and no '.' parses back to that namespace and its HBase table name |
| HTable94NameConverter.FromToDefault | cdap-hbase-compat-0.94/src/main/java/co/cask/cdap/data2/util/hbase/HTable94NameConverter.java:39-66 | a default-namespace table whose HBase name has no '_' before its first '.' parses back to the default namespace with that name as qualifier |
| ArtifactReaderFactory.Lower | cdap-app-fabric/src/main/java/io/cdap/cdap/app/preview/ReadArtifactRepositoryReaderFactory.java:31 | lowercasing keeps the length and lowers each character |
| ArtifactReaderFactory.Create | cdap-app-fabric/src/main/java/io/cdap/cdap/app/preview/ReadArtifactRepositoryReaderFactory.java:25-41 | a missing value is an error; otherwise the lowercased value selects the remote reader iff it equals the NoSQL constant, the local reader iff it equals the SQL constant and not the NoSQL one, and an error carrying it iff it equals neither |
| ArtifactReaderFactory.LowerIdempotent | cdap-app-fabric/src/main/java/io/cdap/cdap/app/preview/ReadArtifactRepositoryReaderFactory.java:31 | lowercasing twice is lowercasing once |
| ArtifactReaderFactory.CreateIgnoresCase | cdap-app-fabric/src/main/java/io/cdap/cdap/app/preview/ReadArtifactRepositoryReaderFactory.java:31-37 | a value and its lowercased form select the same reader or error |
| ArtifactReaderFactory.SelectedConstantIsLowerCase | cdap-app-fabric/src/main/java/io/cdap/cdap/app/preview/ReadArtifactRepositoryReaderFactory.java:31-37 | a constant that some value selects is already lower case |

## Left out

- Only the four pieces above are modelled; the rest of CDAP is outside this model.
- Java reflection in `inspectFlowlet`:
  - the `TypeToken` class walk, `getDeclaredFields`, `getDeclaredMethods` and annotation lookup
    become `ClassLevel` values given in walk order;
  - `resolveType` and raw-type equality become the `TypeRef` datatype, which distinguishes
    `StreamEvent` from other classes.
- `Flowlet.configure()` and `Stream.configure()` are reduced to the names they report. The
  `FlowletSpecification` they produce is not modelled beyond its name.
- FlowSpecification.Builder.Add: the `ResourceSpecification.Builder` step is collapsed. `add`
  returns a resource builder whose `apply` callback stores the definition; here the resources
  are an argument, and the callback runs at once.
- FlowSpecification.Connector.To: after `from(stream)`, if the target flowlet has neither an
  input named after the stream nor the any-input "", the source throws a
  `NullPointerException`. Here that is the error `NoInputForStream`.
- `to` after `from(flowlet)` records no connection, as in the source, whose flowlet-to-flowlet
  connection is commented out. `fromFlowlet` is kept but never read.
- `HashMap` and `HashSet` iteration order is not modelled. `connect` picks the flowlets in an
  arbitrary order, and its result is a set, so the order does not matter.
- FlowSpecification.Connector.Build: returns a snapshot of the builder's flowlets and
  connections. The source wraps the builder's live map and list in unmodifiable views, so
  flowlets or connections added through the same builder after `build()` also show up in the
  built flow. That aliasing is not captured.
- The getters of `FlowSpecification`, `FlowletDefinition` and `FlowletConnection` are plain
  field reads. The datatypes' fields stand for them.
- `main`'s classloader creation and its reflective `initialize`/`run`/`destroy` calls are not
  modelled: they are runtime class loading. So is `unArchiveJars`, which reads a JSON file,
  and `unJar`, which extracts a zip and deletes and renames files.
- DataprocJobMain.GetClasspath: URLs are identified by the file path they come from.
  `toURI().toURL()` absolutization is not modelled. `new File(dir, child)` is `dir + "/" + child`.
- DataprocJobMain.GetClasspath: the resources jar is a parameter. `main` passes
  `RESOURCES_JAR`, `APPLICATION_JAR` and `TWILL_JAR`, whose values are not part of this model.
- `HTableNameConverter.from`, `getHBaseTableName`, `toHBaseNamespace` and the CDAP constants
  are not part of this model. They are parameters with no properties assumed. So
  `HTable94NameConverter.from(hTableName)` is `FromTableName` without that final conversion,
  and the round-trip lemmas assume only what they state about `toHBaseNamespace`.
- ArtifactReaderFactory.Lower: lowers only the ASCII letters 'A'-'Z'. Java's locale-dependent
  Unicode `toLowerCase` is not modelled.
- The Guice injector lookups in `ReadArtifactRepositoryReaderFactory` become the `ReaderKind`
  chosen. The configuration lookup becomes an `Option` argument.
- `PreviewHttpModule`, `PropertiesResolver`, `ApplicationRecordDataFetcher`,
  `TruncateStreamCommand`, `CubeDeleteQuery` and `RuntimeJobId` are not modelled. They are
  dependency-injection wiring, calls into foreign services, or plain value holders.
