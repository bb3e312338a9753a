# KAMI configuration controller, modelled in Dafny

This project models `FiberController.kt`, the per-service configuration registry of the KAMI client. The registry maps a dotted service name, such as `core.gui.clickgui`, to a *unit*. A unit binds the service's configuration tree to a JSON5 file under a root directory. The model covers:

- **Path derivation** (`ServicePaths`): the name is split on `.` into path components, and the last component gets `.json5`. The model proves this round-trips: within the model's path representation, which keeps every segment as its own component, the file determines the service name. In the program, names that differ only by empty segments (`a` and `a.`) share one file, as described under "## Left out".
- **Name helpers** (`ServiceNames`): `coreService`, `internalService`, `guiService` and `featuresService`, together with the paths they produce.
- **The storage environment** (`Storage`): the disk is modelled as a map from path to file content plus a set of directories. A failure oracle says, per path, which of `createDirectories`, `outputStream`, `inputStream`, `serialize` and `deserialize` throw. The codec is abstract: a complete serialisation carries the settings it was written from.
- **The unit's save/load policy** (`Units`): `SaveSpec` and `LoadSpec` state each unit operation's outcome and effect as pure functions. The class methods `FiberUnit.Save` and `FiberUnit.Load` run the steps in order against the disk and are proved equal to those functions. The error-propagation boundary is the main point: only the codec call is caught inside the unit, so directory-creation and stream-open failures escape to the caller.
- **The registry** (`Controller`): `FiberController` is a class whose `units` map changes in place. It has `Register`, the single-service `Save`/`Load`, and the bulk `LoadAll`/`SaveAll`.
  - The bulk loops visit every unit exactly once, in an unspecified order, and catch each unit's exception on its own.
  - `SaveAll` is proved against `SaveSeq`, a function that saves the services one after the other.
  - A lemma shows that saving distinct services in sequence is the same as saving each one on the starting disk.

Every call ends in one of three outcomes: `Normal`, `Logged(f)` (a failure was caught and printed) or `Threw(f)`.

Inside a unit, only the codec call is wrapped in try/catch, so failures of `createDirectories`, `outputStream` and `inputStream` propagate out of `register(…, loadNow = true)`, `save(name)` and `load(name)`. This model follows the code.

## Model

| member | source | states |
|---|---|---|
| `ServicePaths.Split` | src/main/kotlin/me/zeroeightsix/kami/setting/FiberController.kt:40 | `split(".")` yields at least one segment, and no segment contains a dot |
| `ServicePaths.JoinSplit` | src/main/kotlin/me/zeroeightsix/kami/setting/FiberController.kt:40 | Joining the segments of a name with `.` gives the name back, so splitting loses nothing |
| `ServicePaths.SplitJoin` | src/main/kotlin/me/zeroeightsix/kami/setting/FiberController.kt:40 | Splitting the join of dot-free segments gives those segments back |
| `ServicePaths.SplitConcat` | src/main/kotlin/me/zeroeightsix/kami/setting/FiberController.kt:40 | A dot between two strings separates their segments: `Split(a + "." + b) == Split(a) + Split(b)` |
| `ServicePaths.SplitDotFree` | src/main/kotlin/me/zeroeightsix/kami/setting/FiberController.kt:40 | A dot-free string is a single segment |
| `ServicePaths.SegmentCount` | src/main/kotlin/me/zeroeightsix/kami/setting/FiberController.kt:40 | The number of segments is the number of dots plus one |
| `ServicePaths.Components` | src/main/kotlin/me/zeroeightsix/kami/setting/FiberController.kt:40-42 | Taking the first segment off and passing it back to `Paths.get` in front of the rest yields exactly the segments, in order |
| `ServicePaths.FileName` | src/main/kotlin/me/zeroeightsix/kami/setting/FiberController.kt:85 | `resolveSibling("${fileName}.json5")` keeps the number of components, and the last one becomes its old name followed by `.json5` |
| `ServicePaths.RelativePath` | src/main/kotlin/me/zeroeightsix/kami/setting/FiberController.kt:85 | A service's relative file always has at least one component |
| `ServicePaths.Target` | src/main/kotlin/me/zeroeightsix/kami/setting/FiberController.kt:85 | `root.resolve(…)`: the file keeps the root as its prefix, and its length is the root's plus the relative path's |
| `ServicePaths.Parent` | src/main/kotlin/me/zeroeightsix/kami/setting/FiberController.kt:89 | A file's directory is its path without the last component |
| `ServicePaths.RelativePathShape` | src/main/kotlin/me/zeroeightsix/kami/setting/FiberController.kt:85 | The relative file has one component per segment (dots plus one). Every segment but the last is kept as is and in order; the last is followed by `.json5` |
| `ServicePaths.FileNamePrefix` | src/main/kotlin/me/zeroeightsix/kami/setting/FiberController.kt:85 | `resolveSibling("${fileName}.json5")` changes only the last component, so leading components pass through unchanged |
| `ServicePaths.ServiceOfFileName` | src/main/kotlin/me/zeroeightsix/kami/setting/FiberController.kt:85 | Removing `.json5` from the last component and joining with `.` undoes the file naming |
| `ServicePaths.ServiceOfRelativePath` | src/main/kotlin/me/zeroeightsix/kami/setting/FiberController.kt:40-42 | The service name is recovered from its relative file: `ServiceOf(RelativePath(n)) == Some(n)` |
| `ServicePaths.TargetInjective` | src/main/kotlin/me/zeroeightsix/kami/setting/FiberController.kt:85 | Two services with the same file under one root are the same service |
| `ServiceNames.CoreService` | src/main/kotlin/me/zeroeightsix/kami/setting/FiberController.kt:119 | `coreService(n)` has `core` as its first segment, followed by the segments of `n` |
| `ServiceNames.GroupSegments` | src/main/kotlin/me/zeroeightsix/kami/setting/FiberController.kt:119-123 | A name `core.<group>.<n>` has segments `core`, the group, then those of `n`, and its file lies under `core/<group>/` |
| `ServiceNames.InternalService` | src/main/kotlin/me/zeroeightsix/kami/setting/FiberController.kt:121 | `internalService(n)` has segments `core`, `internal`, then those of `n` |
| `ServiceNames.GuiService` | src/main/kotlin/me/zeroeightsix/kami/setting/FiberController.kt:122 | `guiService(n)` has segments `core`, `gui`, then those of `n` |
| `ServiceNames.FeaturesService` | src/main/kotlin/me/zeroeightsix/kami/setting/FiberController.kt:123 | `featuresService(n)` has segments `core`, `features`, then those of `n` |
| `ServiceNames.InternalServicePath` | src/main/kotlin/me/zeroeightsix/kami/setting/FiberController.kt:121 | `internalService(n) == "core.internal." + n`, stored under `core/internal/` |
| `ServiceNames.GuiServicePath` | src/main/kotlin/me/zeroeightsix/kami/setting/FiberController.kt:122 | `guiService(n) == "core.gui." + n`, stored under `core/gui/` |
| `ServiceNames.FeaturesServicePath` | src/main/kotlin/me/zeroeightsix/kami/setting/FiberController.kt:123 | `featuresService(n) == "core.features." + n`, stored under `core/features/` |
| `ServiceNames.HelpersDisjoint` | src/main/kotlin/me/zeroeightsix/kami/setting/FiberController.kt:121-123 | Names made by different helpers never coincide, whatever the arguments |
| `Storage.Ancestors` | src/main/kotlin/me/zeroeightsix/kami/setting/FiberController.kt:89 | `createDirectories` makes exactly the directory and every one of its ancestors, down to the root |
| `Storage.Disk.CreateDirectories` | src/main/kotlin/me/zeroeightsix/kami/setting/FiberController.kt:89 | Throws a storage failure when the oracle says so. Otherwise it adds the directory and its ancestors. Files are never touched |
| `Storage.Disk.OpenForWrite` | src/main/kotlin/me/zeroeightsix/kami/setting/FiberController.kt:90 | `CREATE, TRUNCATE_EXISTING`: the file is created or emptied. It throws when the oracle says so or the directory is missing |
| `Storage.Disk.Serialize` | src/main/kotlin/me/zeroeightsix/kami/setting/FiberController.kt:92 | Writes the tree's settings, or leaves a partial file and throws a codec failure |
| `Storage.Disk.Exists` | src/main/kotlin/me/zeroeightsix/kami/setting/FiberController.kt:103 | True exactly when the file is on the disk |
| `Storage.Disk.OpenForRead` | src/main/kotlin/me/zeroeightsix/kami/setting/FiberController.kt:104 | Throws a storage failure for a missing file or when the oracle says so |
| `Storage.Overlay` | src/main/kotlin/me/zeroeightsix/kami/setting/FiberController.kt:106 | Deserialising into a tree keeps exactly the tree's own settings. Those the file holds take the file's value; the others keep theirs |
| `Storage.OverlaySelf` | src/main/kotlin/me/zeroeightsix/kami/setting/FiberController.kt:106 | Deserialising a tree's own settings into it leaves it unchanged |
| `Storage.OverlayIdempotent` | src/main/kotlin/me/zeroeightsix/kami/setting/FiberController.kt:106 | Deserialising the same file twice has the effect of doing it once |
| `Storage.Disk.Deserialize` | src/main/kotlin/me/zeroeightsix/kami/setting/FiberController.kt:106 | Succeeds exactly on a complete serialisation the oracle lets through, and then overlays the file's settings on the tree. Otherwise it throws a codec failure |
| `Units.SaveSpec` | src/main/kotlin/me/zeroeightsix/kami/setting/FiberController.kt:87-99 | A save throws (a storage failure) exactly when directory creation or the open fails, and then files are unchanged. It logs a codec failure exactly when serialisation fails. Once opened, the file exists even if serialisation fails. A clean save leaves `Serialized(settings)`. Directories are only added |
| `Units.SaveTouchesOnlyTarget` | src/main/kotlin/me/zeroeightsix/kami/setting/FiberController.kt:87-99 | A save changes no file other than its own |
| `Units.SaveSpecLocal` | src/main/kotlin/me/zeroeightsix/kami/setting/FiberController.kt:87-99 | A save's outcome and its own file depend only on that file and the oracle, not on the rest of the disk |
| `Units.LoadSpec` | src/main/kotlin/me/zeroeightsix/kami/setting/FiberController.kt:101-113 | A missing file is a no-op. Only a failing `inputStream` throws, and it leaves the tree alone. Once the file is open, the load is logged, with the tree disturbed, exactly when the file is not a complete serialisation or deserialisation fails. A successful load overlays what was serialised into the file on the tree |
| `Units.SaveThenLoad` | src/main/kotlin/me/zeroeightsix/kami/setting/FiberController.kt:87-113 | Under the abstract codec, which reads back exactly the settings it wrote, a save that meets no failure followed by a load that meets none has the effect of overlaying the saved settings. The JSON5 round trip itself is not part of this model |
| `Units.SaveThenLoadRestores` | src/main/kotlin/me/zeroeightsix/kami/setting/FiberController.kt:87-113 | Under the same abstract codec, a tree saved and then loaded back without failure, with its settings unchanged in between, ends with exactly the settings it was saved with |
| `Units.FiberUnit.constructor` | src/main/kotlin/me/zeroeightsix/kami/setting/FiberController.kt:82 | A unit is bound to the given path and tree |
| `Units.FiberUnit.RelativeTo` | src/main/kotlin/me/zeroeightsix/kami/setting/FiberController.kt:85 | `getRelativePath(root)` is never empty, so the file always has a name |
| `Units.FiberUnit.Save` | src/main/kotlin/me/zeroeightsix/kami/setting/FiberController.kt:87-99 | Running `createDirectories`, `outputStream` and `serialize` in order gives exactly `SaveSpec`'s outcome and disk |
| `Units.FiberUnit.Load` | src/main/kotlin/me/zeroeightsix/kami/setting/FiberController.kt:101-113 | Running `exists`, `inputStream` and `deserialize` in order gives exactly `LoadSpec`'s outcome, with the tree changed as `LoadSpec`'s effect says |
| `Controller.Swallow` | src/main/kotlin/me/zeroeightsix/kami/setting/FiberController.kt:52-57 | The bulk loops' try/catch: a thrown failure becomes a logged one, and nothing is thrown on |
| `Controller.SaveSeq` | src/main/kotlin/me/zeroeightsix/kami/setting/FiberController.kt:61-70 | Saving the services of an order one after the other reports exactly the services of that order |
| `Controller.SaveStep` | src/main/kotlin/me/zeroeightsix/kami/setting/FiberController.kt:62-69 | One more save in `saveAll`'s loop keeps its progress invariant: reports, saved files, untouched files and directories |
| `Controller.SaveSeqProgress` | src/main/kotlin/me/zeroeightsix/kami/setting/FiberController.kt:61-70 | Saving distinct services in sequence maintains that invariant, by induction on the order |
| `Controller.SaveSeqOutcomes` | src/main/kotlin/me/zeroeightsix/kami/setting/FiberController.kt:61-70 | In a sequence of saves, each service reports, and leaves in its file, what its save alone on the starting disk would. No other file changes, and the directories created by those saves are added |
| `Controller.SaveNext` | src/main/kotlin/me/zeroeightsix/kami/setting/FiberController.kt:63-68 | One iteration of `saveAll`: the unit's save, with its exception caught, extends the run by one service |
| `Controller.SaveEach` | src/main/kotlin/me/zeroeightsix/kami/setting/FiberController.kt:61-70 | `saveAll`'s loop saves every unit exactly once, in some order, and ends as `SaveSeq` says for that order |
| `Controller.LoadReport` | src/main/kotlin/me/zeroeightsix/kami/setting/FiberController.kt:50-59 | `loadAll`'s report covers exactly the services loaded |
| `Controller.LoadReportValues` | src/main/kotlin/me/zeroeightsix/kami/setting/FiberController.kt:50-59 | Each service's entry is its own load's outcome with the exception caught, whatever the order |
| `Controller.LoadEffects` | src/main/kotlin/me/zeroeightsix/kami/setting/FiberController.kt:50-59 | The record of tree effects covers exactly the services loaded |
| `Controller.LoadEffectsValues` | src/main/kotlin/me/zeroeightsix/kami/setting/FiberController.kt:50-59 | Each service's recorded effect is its own load's effect |
| `Controller.LoadNext` | src/main/kotlin/me/zeroeightsix/kami/setting/FiberController.kt:52-57 | One iteration of `loadAll`: the load's outcome with its exception caught, and its effect on the unit's tree. Trees of other services are untouched |
| `Controller.LoadEach` | src/main/kotlin/me/zeroeightsix/kami/setting/FiberController.kt:50-59 | `loadAll`'s loop loads every unit exactly once, in some order. The report is that of the order. Every tree bound to one service only ends as that service's load leaves it |
| `Controller.FiberController.constructor` | src/main/kotlin/me/zeroeightsix/kami/setting/FiberController.kt:31-35 | A new registry is empty and bound to its root and disk |
| `Controller.FiberController.Register` | src/main/kotlin/me/zeroeightsix/kami/setting/FiberController.kt:37-48 | A duplicate name throws and changes neither the map nor the tree. A fresh name adds exactly that key, bound to a new unit with the given tree and derived path, before the optional load; so it stays registered when the load throws. Without `loadNow` nothing else happens. With it, the outcome and tree follow `LoadSpec`, thrown on uncaught |
| `Controller.FiberController.Save` | src/main/kotlin/me/zeroeightsix/kami/setting/FiberController.kt:72-75 | An unknown name throws `NoSuchElementException` and leaves the disk alone. Otherwise it is the unit's save, its failures uncaught |
| `Controller.FiberController.Load` | src/main/kotlin/me/zeroeightsix/kami/setting/FiberController.kt:77-80 | An unknown name throws `NoSuchElementException` and may modify nothing. Otherwise it is the unit's load, its failures uncaught |
| `Controller.FiberController.LoadAll` | src/main/kotlin/me/zeroeightsix/kami/setting/FiberController.kt:50-59 | Every registered service is loaded exactly once and reported with its own outcome, caught. A tree bound to one service ends as its load leaves it. The registry and the disk are unchanged |
| `Controller.FiberController.SaveAll` | src/main/kotlin/me/zeroeightsix/kami/setting/FiberController.kt:61-70 | Every registered service is saved exactly once and reported with its own save's outcome on the starting disk, caught. Each file ends as its save alone would leave it. No other file changes. The directories of the saves that got past `createDirectories` are added |

## Left out

- Real file-system I/O is replaced by the abstract disk and its failure oracle. `exists()` and opening are atomic, and the disk cannot change between them.
- Closing the streams opened with `use` is not modelled, so a failure on close is not either.
- `createDirectories` either creates the whole chain of directories or throws. A chain that is only partly created before a failure is not modelled.
- `FiberSerialization`, `JanksonValueSerializer` and the JSON5 byte format are not part of this model. The codec is uninterpreted: a complete serialisation carries the tree's settings, and the oracle says which calls throw. The `serializer` constructor parameter is therefore not modelled.
- A configuration tree's internal structure is reduced to a map from setting name to value. A successful deserialisation overlays the file's values on the settings the tree already has, and ignores entries the tree lacks. Value conversion, and how a setting rejects a value, are not modelled. A failed deserialisation may leave any settings in the tree.
- Printing (`printStackTrace`, `System.err.println`) is recorded only as the `Logged` outcome. The message text is not modelled, and neither is the text of `RuntimeFiberException`.
- `Paths.get`, `resolve` and `resolveSibling` normalisation is not modelled. The model keeps every piece `split(".")` yields, including empty ones from `a..b` or a leading or trailing dot. A segment containing a path separator stays one component.
- A service file with no parent directory is not modelled. That happens with an empty root and a dot-free name, where `parent` is null in the code. The model treats it as the empty directory.
- `HashMap` iteration order in the bulk loops is not modelled. The loops visit the registered services in an arbitrary order, returned as a ghost `order`.
- Concurrency is not modelled: the code has none.
- The default `loadNow = true` of the `FiberController` interface is not modelled; callers pass the flag explicitly.
- `Controller.FiberController.LoadAll`: the final tree is stated only for a tree bound to a single service. When one tree is registered under several names, the tree ends with whichever of their loads came last in the unspecified order, and the contract does not state which.
- `Controller.LoadEach`: the loop behind `loadAll` carries the same limitation. It states the final settings only for trees bound to a single service.
- `ServicePaths.TargetInjective` holds for the model's paths, which keep every segment as its own component. In the program, `Paths.get` (FiberController.kt line 42) drops empty components, so `a` and `a.`, or `a.b` and `a..b`, resolve to the same `.json5` file. A segment containing `/` is split into several components, so `a/b` and `a.b` also collide. The lemma therefore carries over to the program only for names whose segments are non-empty and contain no path separator.
- `ServicePaths.ServiceOfRelativePath` carries over to the program only for those same names, for the same reason.
- `Controller.FiberController.SaveAll`: when two registered names share a file in the program, that file ends with whichever of their saves came last in `HashMap` order, not with each save's own result as the contract states. The contract matches the program for names whose segments are non-empty and contain no path separator.
- `InvalidPathException` from `Paths.get`, for a name with a character the file system rejects, is not modelled: `register` would throw it before the name is bound.
- `Controller.FiberController.SaveAll`: each save is stated in terms of the settings the trees had when the call began. This is exact, because saving never changes a tree.
