# ArkWeb: verified models

The ArkWeb repository mostly forwards calls to system services. This project models the parts that
hold state, loop, or compute on text and bytes, and proves what they promise over every input and
every run. Services (audio, camera, surface, IPC transport, parameter store, dynamic loading) appear
as parameters that may answer in any way.

Code that changes state is a class or a method with the source's own branches and loops. Each such
method is proved equal to a specification function of the old state. What these functions mean is then
proved without naming them: field by field, by position, and over whole runs where the source promises
something about runs.

| file | models |
|---|---|
| `AudioDevices.dfy` | the output device id table and its four users |
| `CameraSession.dfy` | the camera session state machine over failing services |
| `RenderCommand.dfy` | the printer and the parser of the render process command line |
| `CloudVersion.dfy` | the version check for downloaded parameter packages |
| `EngineVersion.dfy` | which web engine version is active |
| `FrameCopy.dfy` | the strided frame copy and the buffer protocol around it |
| `BrowserIpc.dfy` | the six messages between render and browser process |
| `BrowserSurfaces.dfy` | the browser host's maps under interleaved requests |
| `EngineLifecycle.dfy` | loading and initialising the engine once |
| `WebViewValues.dfy` | the builder of nested values on the heap |
| `WebConfig.dfy`, `WebConfigMeaning.dfy` | folding the configuration files; what they mean, entry by entry |
| `ResourceHandler.dfy` | the terminal-state protocol of an intercepted request |
| `Segments.dfy`, `Decimal.dfy` | texts as lists of segments; decimal numbers as text |
| `Sequences.dfy`, `Options.dfy` | associativity of sequences; an option type |

`dafny verify dfyconfig.toml` checks the whole project.

## What turned out false, and when exactly

- A non-Bluetooth output device can lose its id: exactly when a Bluetooth lookup's MAC sits first in
  that device's slot (`WhenAnIdMoves`, over runs `IdKeptExactly`; `SharedMacMovesAnId`). If no MAC is
  shared between the two kinds, ids are devices (`IdsAreDevices`).
- A capture session can be dropped without being released, even when nobody overrides the status:
  exactly in a restart while capturing, or in a start that asks for a new session while one is held
  (`SessionLostExactly`, over runs `RunLosesNoSessionExactly`; `StartingTwiceLosesASession`). The
  discipline of `DisciplineLosesNoSession` rules it out.
- A stream does not only start at status AVAILABLE: every status but UNAVAILABLE lets it, also one that
  an override stored (`StartedStreamIsFresh`, `StartsAtAppear`, `StartAtAppearLosesASession`).
- `OutputFrameCallback` obtains a buffer and neither flushes nor cancels it exactly when the fence
  object cannot be allocated (ohos_nweb/src/nweb_surface_adapter.cpp:119-123; the last clause of
  `FrameCopy.OutputFrameCallback`, on the predicate `Settled`).
- The 32-bit bounds check of `CopyFrame` lets a row through that ends behind the buffer exactly when
  rows are copied at all (positive stride, no wider row), not all of them fit, and the end of the first
  that does not fit reaches 2^32 (`ChecksHoldExactly`, `OverrunsByRows`,
  `FourthRowOverruns`); otherwise nothing behind the buffer changes (`BehindUntouched`).
- An enforced engine need not be the active one (`EnforcedIsActiveExactly`, `EnforcedIsNotActive`).
- A surface can lose its context to another surface with the same node id, by a destroy or already by a
  query; two surfaces without a node id are such a pair (`ContextKeptExactly`,
  `DestroyTakesAnotherContextExactly`, `TwoSurfacesWithoutNode`, `SecondSurfaceReplacesContext`).
- The command line round trip fails exactly when one of the three values contains a `#` (`RoundTrip`).
- Parsing the configuration again is idempotent for the helper's fields, but not for the argument
  lists, unless no file has an argument (`SecondParseKeepsArgsExactly`, `SecondParseDoubles`). Three
  callers pass a fresh argument object (ohos_nweb/src/nweb_helper.cpp:771-784,
  ohos_nweb/src/nweb_config_helper.cpp:263-264 and 831-832). The creation of a web on a surface parses
  into the object it is handed (ohos_nweb/src/nweb_helper.cpp:1385-1413), so doubling needs a caller
  that creates two webs with one object.

The repository's README still names older engine versions; the model follows the enumeration in
arkweb_utils/arkweb_utils.h:87-100.

## Model

| member | source | states |
|---|---|---|
| `AudioDevices.RunKeepsInv` | ohos_adapter/audio_adapter/src/audio_system_manager_adapter_impl.cpp:150-189 | over any run of lookups the ids are exactly 1..n in order, no two slots hold the same descriptor, no slot disappears and no slot's MAC changes |
| `AudioDevices.BluetoothIdsFollowMacs` | ohos_adapter/audio_adapter/src/audio_system_manager_adapter_impl.cpp:150-189 | two Bluetooth lookups anywhere in a run return equal ids exactly when their MACs are equal |
| `AudioDevices.IdsAreDevices` | ohos_adapter/audio_adapter/src/audio_system_manager_adapter_impl.cpp:150-189 | if no Bluetooth MAC is shared with another kind of device, two lookups of a run return equal ids exactly when they are for the same physical device |
| `AudioDevices.WhenAnIdMoves` | ohos_adapter/audio_adapter/src/audio_system_manager_adapter_impl.cpp:150-189 | a lookup takes the id of a registered non-Bluetooth device away exactly when it is a Bluetooth lookup whose MAC's first slot is that device's |
| `AudioDevices.IdKeptExactly` | ohos_adapter/audio_adapter/src/audio_system_manager_adapter_impl.cpp:150-189 | in any run a non-Bluetooth device keeps the id of its i-th lookup at every later moment exactly when no Bluetooth lookup since has this slot as the first of its MAC |
| `AudioDevices.SharedMacMovesAnId` | ohos_adapter/audio_adapter/src/audio_system_manager_adapter_impl.cpp:150-189 | a concrete run in which the speaker's id goes to a headset with the speaker's MAC |
| `AudioDevices.ReportedIdResolves` | ohos_adapter/audio_adapter/src/audio_system_manager_adapter_impl.cpp:371-422 | an output id that an enumeration reported, selected later over the same list after any further lookups, finds a position that holds the same physical device and is no sentinel while the table has fewer than 1000000 slots |
| `AudioDevices.ReportedIdSelectsItsDevice` | ohos_adapter/audio_adapter/src/audio_system_manager_adapter_impl.cpp:371-422 | an id that an enumeration reported selects the same physical device, with the call flag |
| `AudioDevices.SelectOutputMeans` | ohos_adapter/audio_adapter/src/audio_system_manager_adapter_impl.cpp:371-422 | the selection is the device at the first list position whose lookup gives the id, with the positions up to it looked up, or a failure when no position gives it |
| `AudioDevices.UsageOfScenes` | ohos_adapter/audio_adapter/src/audio_system_manager_adapter_impl.cpp:297-315 | which lists are asked for in a phone call, a chat and otherwise |
| `AudioDevices.LookupWritesOneSlot` | ohos_adapter/audio_adapter/src/audio_system_manager_adapter_impl.cpp:150-189 | a lookup leaves the device it was made for in its slot and changes no other slot |
| `AudioDevices.LookupKeepsInv` | ohos_adapter/audio_adapter/src/audio_system_manager_adapter_impl.cpp:150-189 | one lookup keeps the table invariant and every MAC, and its slot then matches the descriptor looked up |
| `AudioDevices.AudioSystemManager.GetDeviceIdByDescriptor` | ohos_adapter/audio_adapter/src/audio_system_manager_adapter_impl.cpp:150-189 | the scan with erase and emplace writes the first matching slot, or a new one at the end, and returns its position plus one; a null descriptor changes nothing |
| `AudioDevices.AudioSystemManager.GetDevices` | ohos_adapter/audio_adapter/src/audio_system_manager_adapter_impl.cpp:297-339 | an output enumeration registers all devices in order and reports the ids those lookups return; other enumerations report the service's ids and leave the table alone; each name is the device's own or, if empty, its type's |
| `AudioDevices.AudioSystemManager.SelectAudioDeviceById` | ohos_adapter/audio_adapter/src/audio_system_manager_adapter_impl.cpp:371-422 | the sentinels select the default or fail without touching the table; any other id selects the device at the first position of the scene's list that it stands for, with the scene's call flag, and otherwise fails with all positions looked up |
| `AudioDevices.AudioSystemManager.DescribeDefaultDevice` | ohos_adapter/audio_adapter/src/audio_system_manager_adapter_impl.cpp:424-496 | both default queries register the first preferred device in the output table and report that id, with a fall-back name; no device leaves the table alone |
| `CameraSession.RunKeepsInv` | ohos_adapter/camera_adapter/src/camera_manager_adapter_impl.cpp:443-553 | on every run, whatever the services answer and whatever 32-bit value an override stores as status: live inputs are exactly the held input, live outputs exactly the held output, the init flag says whether an input is held, a live output implies a live input, a held session implies capturing, flashing implies capturing |
| `CameraSession.ManagerReleaseLeavesNoStream` | ohos_adapter/camera_adapter/src/camera_manager_adapter_impl.cpp:831-843 | releasing the manager after any run leaves no live input, no live output, no held session and no manager |
| `CameraSession.StartedStreamIsFresh` | ohos_adapter/camera_adapter/src/camera_manager_adapter_impl.cpp:877-919 | a stream starts exactly when the status is not UNAVAILABLE, no input is left over, parameters and listener are there and every service agrees; it then runs on an output created by this call with this call's parameters and listener |
| `CameraSession.UnavailableIsComplete` | ohos_adapter/camera_adapter/src/camera_manager_adapter_impl.cpp:676-729 | in runs without a status override, an unavailable camera has manager, input, output and session |
| `CameraSession.SessionLostExactly` | ohos_adapter/camera_adapter/src/camera_manager_adapter_impl.cpp:676-774 | a call drops the session held before it without releasing it exactly when it is a restart while capturing or a start that gets as far as asking for a new session; no call loses another one and a lost one stays lost |
| `CameraSession.RunLosesNoSessionExactly` | ohos_adapter/camera_adapter/src/camera_manager_adapter_impl.cpp:676-919 | after a whole run no live session is unheld exactly when no call of the run was one of those that drop the held session |
| `CameraSession.DisciplineLosesNoSession` | ohos_adapter/camera_adapter/src/camera_manager_adapter_impl.cpp:676-804 | under the discipline (no status override, start and restart only while available) the live sessions are exactly the held one, held exactly while the camera is unavailable |
| `CameraSession.StartingTwiceLosesASession` | ohos_adapter/camera_adapter/src/camera_manager_adapter_impl.cpp:877-919 | a concrete run without status override in which starting a running camera twice more loses a session |
| `CameraSession.StartsAtAppear` | ohos_adapter/camera_adapter/src/camera_manager_adapter_impl.cpp:447-451 | a concrete run in which a start at status APPEAR begins a session |
| `CameraSession.StartAtAppearLosesASession` | ohos_adapter/camera_adapter/src/camera_manager_adapter_impl.cpp:877-919 | a concrete run in which a start at status APPEAR loses a held session |
| `CameraSession.CapturingExactly` | ohos_adapter/camera_adapter/src/camera_manager_adapter_impl.cpp:676-792 | in every run the camera is capturing exactly when some start succeeded and no normal stop at another status than AVAILABLE came since |
| `CameraSession.FlashingExactly` | ohos_adapter/camera_adapter/src/camera_manager_adapter_impl.cpp:268-289 | in every run the flag for flashing is set exactly when an ALWAYS_OPEN was accepted and neither an accepted CLOSE nor such a stop came since |
| `CameraSession.StartSucceedsAs` | ohos_adapter/camera_adapter/src/camera_manager_adapter_impl.cpp:877-919 | when a start succeeds, and that it then captures with this call's device, parameters and listener |
| `CameraSession.StartFailsAs` | ohos_adapter/camera_adapter/src/camera_manager_adapter_impl.cpp:877-919 | which resources and settings a refused start leaves, by where it was refused |
| `CameraSession.RestartDoes` | ohos_adapter/camera_adapter/src/camera_manager_adapter_impl.cpp:731-774 | a restart acts only while capturing with a manager, with the remembered device, parameters and listener, and leaves nothing behind when refused |
| `CameraSession.StopDoes` | ohos_adapter/camera_adapter/src/camera_manager_adapter_impl.cpp:776-792 | a stop does nothing at AVAILABLE; otherwise nothing streams, and a normal stop, not one to the background, ends capturing and flashing |
| `CameraSession.ManagerReleaseDoes` | ohos_adapter/camera_adapter/src/camera_manager_adapter_impl.cpp:831-843 | releasing the manager releases input, output and session and leaves the settings for capturing |
| `CameraSession.StepKeepsInv` | ohos_adapter/camera_adapter/src/camera_manager_adapter_impl.cpp:443-919 | every operation keeps the handle and flag invariant |
| `CameraSession.CameraManagerAdapter.CreateManager` | ohos_adapter/camera_adapter/src/camera_manager_adapter_impl.cpp:344-359 | a held manager is kept and one that is found is held; the result says whether one is |
| `CameraSession.CameraManagerAdapter.InitCameraInput` | ohos_adapter/camera_adapter/src/camera_manager_adapter_impl.cpp:443-494 | succeeds exactly when the status is not UNAVAILABLE, no input was opened, a manager is held and every service agrees; on failure the handle created, if any, is released again |
| `CameraSession.CameraManagerAdapter.InitPreviewOutput` | ohos_adapter/camera_adapter/src/camera_manager_adapter_impl.cpp:496-553 | succeeds with an input and manager when an output is held or can be created; a held output is kept, a new one carries the given parameters and listener |
| `CameraSession.CameraManagerAdapter.CreateAndStartSession` | ohos_adapter/camera_adapter/src/camera_manager_adapter_impl.cpp:676-729 | starts a session exactly when the status is not UNAVAILABLE, input and output are held and every service agrees; on a refusal the session created last is still held for the caller to release |
| `CameraSession.CameraManagerAdapter.ReleaseSession` | ohos_adapter/camera_adapter/src/camera_manager_adapter_impl.cpp:794-804 | stops and releases exactly the held session |
| `CameraSession.CameraManagerAdapter.ReleaseSessionResource` | ohos_adapter/camera_adapter/src/camera_manager_adapter_impl.cpp:806-829 | releases exactly the held input and output and resets the flags |
| `CameraSession.CameraManagerAdapter.StartStreamInner` | ohos_adapter/camera_adapter/src/camera_manager_adapter_impl.cpp:885-919 | state and result, on every exit, of the start that `StartSucceedsAs` and `StartFailsAs` describe; keeps the invariant |
| `CameraSession.CameraManagerAdapter.StartStream` | ohos_adapter/camera_adapter/src/camera_manager_adapter_impl.cpp:877-883 | the locked form of the same, keeping the invariant |
| `CameraSession.CameraManagerAdapter.RestartSession` | ohos_adapter/camera_adapter/src/camera_manager_adapter_impl.cpp:731-774 | state and result, on every exit, of the restart that `RestartDoes` describes; keeps the invariant |
| `CameraSession.CameraManagerAdapter.StopSession` | ohos_adapter/camera_adapter/src/camera_manager_adapter_impl.cpp:776-792 | nothing at AVAILABLE; otherwise everything is released, and only a normal stop clears capturing and flashing; keeps the invariant |
| `CameraSession.CameraManagerAdapter.ReleaseCameraManger` | ohos_adapter/camera_adapter/src/camera_manager_adapter_impl.cpp:831-843 | afterwards no input and no output is live; keeps the invariant |
| `CameraSession.CameraManagerAdapter.SetFlashMode` | ohos_adapter/camera_adapter/src/camera_manager_adapter_impl.cpp:268-289 | succeeds exactly with a session whose service accepts the mode; the flashing flag follows; keeps the invariant |
| `CameraSession.CameraManagerAdapter.SetCameraStatus` | ohos_adapter/camera_adapter/src/camera_manager_adapter_impl.cpp:850-855 | stores any 32-bit value as status and changes nothing else |
| `RenderCommand.RoundTrip` | ohos_adapter/aafwk_adapter/src/aafwk_app_mgr_client_adapter_impl.cpp:131-136 | for every renderParam, even one already holding these parameters, the three values and then the engine version are recovered from the printed command line and renderParam is restored, exactly when the three values are '#'-free |
| `RenderCommand.PassToChild` | arkweb_utils/arkweb_utils.cpp:494-518 | for every renderParam, stored information and '#'-free sent information: after the child took the printed line apart, each stored field is the sent one if that is non-empty and otherwise the one stored before; the engine version comes out too and renderParam is left |
| `RenderCommand.FoundAreLastValues` | arkweb_utils/arkweb_utils.cpp:494-518 | for any text, the three values taken out one after the other are those of the last parameters with these keys in the text as it came |
| `RenderCommand.ExtractTakesLastOccurrence` | arkweb_utils/arkweb_utils.cpp:468-492 | a failed extraction changes nothing; a successful one removes exactly prefix and value of the last occurrence, keeps the earlier ones in order, lowers the number of occurrences by one and the length by exactly what was cut |
| `RenderCommand.ExtractKeepsOtherParams` | arkweb_utils/arkweb_utils.cpp:468-492 | when neither key is a prefix of the other, the parameters of the other key stay, in order and in number |
| `RenderCommand.RepeatedExtractionDrains` | arkweb_utils/arkweb_utils.cpp:468-492 | n extractions in a row lower the number of occurrences by n until none is left |
| `RenderCommand.ExtractRemovesOneParam` | arkweb_utils/arkweb_utils.cpp:468-492 | seen as '#'-separated segments, an extraction removes exactly the last segment that starts with the key and returns the rest of it |
| `RenderCommand.ExtractAppended` | arkweb_utils/arkweb_utils.cpp:468-492 | a parameter appended behind any text is the one found, and the rest is the text with the other appended parameters |
| `RenderCommand.OccurrencesAreParams` | arkweb_utils/arkweb_utils.cpp:468-492 | occurrences of "#key" in a text are exactly its parameters that start with the key |
| `RenderCommand.CutIsUnique` | arkweb_utils/arkweb_utils.cpp:468-492 | cutting prefix and maximal '#'-free value at the last occurrence determines value and remaining text uniquely |
| `RenderCommand.Extract` | arkweb_utils/arkweb_utils.cpp:468-492 | empty prefix or no occurrence: empty value and unchanged text; otherwise the unique cut at the last occurrence |
| `Segments.JoinSplit` | arkweb_utils/arkweb_utils.cpp:468-492 | a text is its segments joined by the separator, so statements about segments are statements about the text |
| `Segments.SplitJoin` | arkweb_utils/arkweb_utils.cpp:296-312 | separator-free segments are recovered from their join |
| `RenderCommand.CommandLine.ExtractAndRemoveParam` | arkweb_utils/arkweb_utils.cpp:468-492 | the in-place rfind, find and erase equal the extraction specification |
| `RenderCommand.AppInfoStore.UpdateAppInfoFromCmdline` | arkweb_utils/arkweb_utils.cpp:494-518 | for any text, each stored field becomes the value of the last parameter with its key, and stays if there is none or it is empty; the rest of the command line is left |
| `RenderCommand.StartChildProcess` | ohos_adapter/aafwk_adapter/src/aafwk_app_mgr_client_adapter_impl.cpp:114-157 | at most ten attempts, all but the last answered by an existing process; success exactly when the last answer is 0; the i-th attempt sends the GPU flag and the command line printed from the engine version and application information that hold then |
| `CloudVersion.CheckCloudCfgVersion` | arkweb_utils/arkweb_utils.cpp:314-340 | accepts exactly when both lines are readable version lines and the update's four fields are lexicographically at least the system's |
| `CloudVersion.HandleVersionString` | arkweb_utils/arkweb_utils.cpp:296-312 | yields a number exactly for version lines; it is the base-1000 positional value of the four fields and stays below 10^12 |
| `CloudVersion.NumericIsLexicographic` | arkweb_utils/arkweb_utils.cpp:314-340 | comparing the positional values is comparing the fields lexicographically |
| `CloudVersion.PositionalBound` | arkweb_utils/arkweb_utils.cpp:296-312 | k fields below 1000 give a value below 10^(3k) |
| `CloudVersion.PaddedMeans` | arkweb_utils/arkweb_utils.cpp:296-312 | a zero-padded field has three digits and the field's value |
| `CloudVersion.MatchIsExact` | arkweb_utils/arkweb_utils.cpp:296-312 | the matcher yields fields exactly when the line is `version`, optional space, `=`, optional space and these fields of one to three digits joined by dots |
| `EngineVersion.ActiveFollowsItsSource` | arkweb_utils/arkweb_utils.cpp:366-443 | in every run the active version is what the priority order chose in the state of the last recalculation, and then M132, M144 or PLAYGROUND, or what the playground call or the internal setter set since |
| `EngineVersion.LoadedLocksTheChoice` | arkweb_utils/arkweb_utils.cpp:409-443 | once the library is loaded, removing all set calls from any run changes nothing, and the application's choice stays |
| `EngineVersion.EnforcedIsActiveExactly` | arkweb_utils/arkweb_utils.cpp:563-594 | in every run an engine that the enforce parameter names is the active one exactly when the active version stems from a recalculation that saw it enforced, or saw nothing enforced and chose it by the application's choice, the cloud list or the default, in this order, or when the internal setter named it |
| `EngineVersion.EnforcedIsNotActive` | arkweb_utils/arkweb_utils.cpp:409-447 | concrete runs for the three ways around an enforced engine: a parameter set after the last recalculation, the internal setter, the playground call |
| `EngineVersion.ChosenExactly` | arkweb_utils/arkweb_utils.cpp:563-594 | an enforced engine is chosen; otherwise the application's choice, M144 for SYSTEM_EVERGREEN, whatever cloud list and default say; without one M132 for an application on the cloud list; otherwise the default if it names an engine, and M144 if not |
| `EngineVersion.ChosenIsRunnable` | arkweb_utils/arkweb_utils.cpp:563-594 | in every reachable state the priority order picks M132, M144 or PLAYGROUND |
| `EngineVersion.RunKeepsInv` | arkweb_utils/arkweb_utils.cpp:366-443 | on every run the application's choice is one of the settable versions or PLAYGROUND, and the cloud choice is unset or legacy |
| `EngineVersion.CalculateActiveWebEngineVersion` | arkweb_utils/arkweb_utils.cpp:563-594 | the branches choose as `ChosenExactly` says |
| `EngineVersion.EngineSelector.SetActiveWebEngineVersion` | arkweb_utils/arkweb_utils.cpp:409-427 | nothing changes when loaded or not one of the four settable values; otherwise the choice is stored and the active version chosen anew |
| `EngineVersion.EngineSelector.SetActiveWebPlayGround` | arkweb_utils/arkweb_utils.cpp:429-443 | only PLAYGROUND and only before loading; it is stored and active without a choice |
| `EngineVersion.EngineSelector.SelectWebcoreBeforeProcessRun` | arkweb_utils/arkweb_utils.cpp:366-377 | a listed application is pinned to the legacy engine, any other keeps what it had; the list is used up and the active version chosen anew |
| `EngineVersion.EngineSelector.PreloadArkWebLibForBrowser` | arkweb_utils/arkweb_utils.cpp:392-407 | each variable the cloud configuration names is taken over, the others stay, and the active version is chosen anew |
| `EngineVersion.EngineSelector.ArkWebBridgeHelperSharedInit` | arkweb_utils/arkweb_utils.cpp:773-800 | sets the lock-in flag exactly when the library opens |
| `FrameCopy.CopyFrame` | ohos_nweb/src/nweb_surface_adapter.cpp:129-162 | for every buffer: the memory afterwards is the frame of exactly the rows whose checks pass in turn, on success and on failure; success exactly when that is all rows; while no check wraps, exactly when they fit the stride and the buffer; rows that do not fit the stride leave all but the first row's place unchanged |
| `FrameCopy.RowsCopiedExactly` | ohos_nweb/src/nweb_surface_adapter.cpp:144-159 | while no check wraps, a call copies exactly the rows that fit and is successful exactly when all do |
| `FrameCopy.OverrunsByRows` | ohos_nweb/src/nweb_surface_adapter.cpp:144-159 | a call accepts a row whose end lies behind the buffer exactly when the rows it copies do not fit |
| `FrameCopy.BehindUntouched` | ohos_nweb/src/nweb_surface_adapter.cpp:144-159 | while no check wraps, a call, successful or not, leaves the memory behind the buffer unchanged |
| `FrameCopy.FrameByRows` | ohos_nweb/src/nweb_surface_adapter.cpp:146-159 | every row of the frame equals its source row and the padding behind it is unchanged |
| `FrameCopy.FrameTail` | ohos_nweb/src/nweb_surface_adapter.cpp:146-159 | all bytes behind the last row are unchanged |
| `FrameCopy.ChecksHoldExactly` | ohos_nweb/src/nweb_surface_adapter.cpp:144-150 | a call accepts a row whose end lies behind the buffer exactly when rows are copied at all, not all of them fit, and the end of the first that does not fit reaches 2^32 |
| `FrameCopy.FourthRowOverruns` | ohos_nweb/src/nweb_surface_adapter.cpp:144-150 | a concrete frame and buffer for which the fourth row is accepted although it ends behind the buffer |
| `FrameCopy.OutputFrameCallback` | ohos_nweb/src/nweb_surface_adapter.cpp:74-94 | for every buffer: an obtained one is flushed exactly when all rows were copied, with the copied bytes, and cancelled otherwise; it is neither flushed nor cancelled exactly when the fence cannot be allocated |
| `FrameCopy.RequestBuffer` | ohos_nweb/src/nweb_surface_adapter.cpp:96-127 | returns the buffer exactly when request and fence succeed; a buffer obtained is recorded even when the fence fails |
| `BrowserIpc.DecodeEncode` | ohos_adapter/aafwk_adapter/src/aafwk_browser_client_adapter_impl.cpp:46-226 | for all six messages and all arguments, decoding the written parcel gives the call back |
| `BrowserIpc.EncodingIsInjective` | ohos_adapter/aafwk_adapter/src/aafwk_browser_client_adapter_impl.cpp:46-226 | two calls with the same code and parcel are the same call |
| `BrowserIpc.BrowserHost.OnRemoteRequest` | ohos_adapter/aafwk_adapter/src/aafwk_browser_host_impl.cpp:77-95 | for every parcel: without the interface token nothing is called and nothing written; with it exactly the decoded call is made and its reply written |
| `BrowserIpc.BrowserHost.HandleQueryRenderSurface` | ohos_adapter/aafwk_adapter/src/aafwk_browser_host_impl.cpp:97-127 | makes the decoded call once and writes surface, node id and optional handle, or nothing but the error result without a surface |
| `BrowserIpc.BrowserHost.HandleReportThread` | ohos_adapter/aafwk_adapter/src/aafwk_browser_host_impl.cpp:129-140 | makes exactly the decoded call, once |
| `BrowserIpc.BrowserHost.HandlePassSurface` | ohos_adapter/aafwk_adapter/src/aafwk_browser_host_impl.cpp:142-154 | calls the method with the decoded producer and id, and calls nothing without a producer |
| `BrowserIpc.BrowserHost.HandleDestroyRenderSurface` | ohos_adapter/aafwk_adapter/src/aafwk_browser_host_impl.cpp:156-161 | makes exactly the decoded call, once |
| `BrowserIpc.BrowserHost.HandleQueryBufferTypeLeak` | ohos_adapter/aafwk_adapter/src/aafwk_browser_host_impl.cpp:163-169 | makes exactly the decoded call, once |
| `BrowserIpc.BrowserHost.HandleUpdateDelegateContainerNode` | ohos_adapter/aafwk_adapter/src/aafwk_browser_host_impl.cpp:171-198 | calls the method with what was decoded, and calls nothing when the parcel cannot be decoded |
| `BrowserIpc.BrowserClient.QueryRenderSurface` | ohos_adapter/aafwk_adapter/src/aafwk_browser_client_adapter_impl.cpp:46-82 | the host sees exactly this call if delivered; for a non-null surface the decoded reply equals the host's surface, node id and optional handle, otherwise nulls and the node id passed in |
| `BrowserIpc.BrowserClient.ReportThread` | ohos_adapter/aafwk_adapter/src/aafwk_browser_client_adapter_impl.cpp:84-108 | the host sees exactly this call with the same four arguments, if delivered |
| `BrowserIpc.BrowserClient.PassSurface` | ohos_adapter/aafwk_adapter/src/aafwk_browser_client_adapter_impl.cpp:110-135 | the host sees exactly this producer and id, if delivered and the producer is not null |
| `BrowserIpc.BrowserClient.DestroyRenderSurface` | ohos_adapter/aafwk_adapter/src/aafwk_browser_client_adapter_impl.cpp:137-158 | the host sees exactly this call, if delivered |
| `BrowserIpc.BrowserClient.QueryBufferTypeLeak` | ohos_adapter/aafwk_adapter/src/aafwk_browser_client_adapter_impl.cpp:160-182 | the host sees exactly this call, and the client gets exactly the host's text, or the empty one if not delivered |
| `BrowserIpc.BrowserClient.UpdateDelegateContainerNode` | ohos_adapter/aafwk_adapter/src/aafwk_browser_client_adapter_impl.cpp:184-226 | the host sees exactly this parent, node and flag, with or without a node, if delivered |
| `BrowserSurfaces.StepKeepsInvExactly` | ohos_adapter/aafwk_adapter/src/aafwk_browser_host_impl.cpp:247-345 | a locked section keeps the node ids injective and the context keys equal to them exactly when it registers a surface under a node id no other surface has, and does not change a registered surface's id |
| `BrowserSurfaces.RunKeepsInv` | ohos_adapter/aafwk_adapter/src/aafwk_browser_host_impl.cpp:247-345 | under any interleaving of such locked sections both hold |
| `BrowserSurfaces.ContextKeptExactly` | ohos_adapter/aafwk_adapter/src/aafwk_browser_host_impl.cpp:247-345 | in any run, whatever the node ids, a surface's node still has the context the surface registered exactly when the last section since then that touched this node, if any, was a query with an equal context; its node id stays |
| `BrowserSurfaces.RegisteredContextIsFound` | ohos_adapter/aafwk_adapter/src/aafwk_browser_host_impl.cpp:335-348 | under any respectful interleaving, looking up a registered surface's node gives the context its own query registered |
| `BrowserSurfaces.SecondSurfaceReplacesContext` | ohos_adapter/aafwk_adapter/src/aafwk_browser_host_impl.cpp:203-278 | two surfaces without a node id: the second query replaces the first one's context |
| `BrowserSurfaces.DestroyTakesAnotherContextExactly` | ohos_adapter/aafwk_adapter/src/aafwk_browser_host_impl.cpp:305-320 | one destroy removes another registered surface's context exactly when the two share their node id |
| `BrowserSurfaces.TwoSurfacesWithoutNode` | ohos_adapter/aafwk_adapter/src/aafwk_browser_host_impl.cpp:203-278 | two surfaces without a node id are such a pair: both count as node 0 |
| `BrowserSurfaces.ContextSurvives` | ohos_adapter/aafwk_adapter/src/aafwk_browser_host_impl.cpp:247-345 | a registered surface keeps node id and context through any respectful order of other sections |
| `BrowserSurfaces.PrintedIsParsed` | ohos_adapter/aafwk_adapter/src/aafwk_browser_host_impl.cpp:203-278 | a printed number below 2^64 is read as itself and a larger one counts as missing |
| `BrowserSurfaces.PrintedUserData` | ohos_adapter/aafwk_adapter/src/aafwk_browser_host_impl.cpp:203-278 | a surface that names node, handle and context by printed numbers has them; 0 names no handle and no context, but it is a node |
| `BrowserSurfaces.AafwkBrowserHost.QueryRenderSurface` | ohos_adapter/aafwk_adapter/src/aafwk_browser_host_impl.cpp:203-278 | caches surface, context and node id and answers producer, optional handle and node id; changes nothing without adapter or surface |
| `BrowserSurfaces.AafwkBrowserHost.DestroyRenderSurface` | ohos_adapter/aafwk_adapter/src/aafwk_browser_host_impl.cpp:305-320 | removes the surface, its node id and the context of that node id, and nothing else |
| `BrowserSurfaces.AafwkBrowserHost.QueryBufferTypeLeak` | ohos_adapter/aafwk_adapter/src/aafwk_browser_host_impl.cpp:322-333 | hands a cached surface's report out once |
| `BrowserSurfaces.AafwkBrowserHost.ContextForUpdate` | ohos_adapter/aafwk_adapter/src/aafwk_browser_host_impl.cpp:335-348 | under the map invariant a context is found only for the node of a registered surface; which one it is, `RegisteredContextIsFound` says |
| `EngineLifecycle.RunKeepsInv` | ohos_nweb/src/nweb_helper.cpp:712-950 | in every run the engine sees LibraryLoaded at most once, InitializeWebEngine at most once and only after it, no web before it; initFlag implies initWebEngine implies a non-null engine |
| `EngineLifecycle.AnnouncedIsLastSet` | ohos_nweb/src/nweb_helper.cpp:712-767 | in every run the lazy value announced is that of the last set call before the load, false without one |
| `EngineLifecycle.RegistrationsInOrder` | ohos_nweb/src/nweb_helper.cpp:689-710 | the saved schemes are offered in order, up to and including the first that is refused |
| `EngineLifecycle.LoadDoes` | ohos_nweb/src/nweb_helper.cpp:712-767 | a load succeeds when the engine is there, or a bundle path is known or given and the services agree; it then announces the library once, behind the schemes, with the flag as it is |
| `EngineLifecycle.InitDoes` | ohos_nweb/src/nweb_helper.cpp:886-906 | the first initialisation with arguments tells the engine, later ones succeed without |
| `EngineLifecycle.LoadWebEngineDoes` | ohos_nweb/src/nweb_helper.cpp:908-920 | a load asked to run initialises the engine if the load succeeded, and not otherwise |
| `EngineLifecycle.CreateNWebDoes` | ohos_nweb/src/nweb_helper.cpp:937-950 | a web is asked for whenever there is an engine, and only a created one counts as initialising |
| `EngineLifecycle.AnnouncedLazyHolds` | ohos_nweb/src/nweb_helper.cpp:712-767 | the lazy value passed to LibraryLoaded at any moment is the flag's value ever after |
| `EngineLifecycle.LazyIsFrozen` | ohos_nweb/src/nweb_helper.cpp:1625-1645 | once the engine exists no call changes the lazy flag |
| `EngineLifecycle.StepKeepsInv` | ohos_nweb/src/nweb_helper.cpp:712-950 | every operation keeps the trace invariant |
| `EngineLifecycle.NWebHelper.RegisterCustomSchemes` | ohos_nweb/src/nweb_helper.cpp:689-710 | offers the schemes in order up to and including the first refused one; succeeds exactly when all are accepted |
| `EngineLifecycle.NWebHelper.GetWebEngine` | ohos_nweb/src/nweb_helper.cpp:712-767 | state, result and engine calls, on every exit, of the load that `LoadDoes` describes; nothing when already loaded |
| `EngineLifecycle.NWebHelper.InitWebEngine` | ohos_nweb/src/nweb_helper.cpp:886-906 | state, result and engine calls of the initialisation that `InitDoes` describes; nothing the second time |
| `EngineLifecycle.NWebHelper.LoadWebEngine` | ohos_nweb/src/nweb_helper.cpp:908-920 | loads the engine and, when asked to run, initialises it; fails exactly when one of the two fails |
| `EngineLifecycle.NWebHelper.CreateNWeb` | ohos_nweb/src/nweb_helper.cpp:937-950 | fails without an engine; otherwise the engine initialises implicitly with the first web |
| `EngineLifecycle.NWebHelper.SetLazyInitializeWebEngine` | ohos_nweb/src/nweb_helper.cpp:1625-1639 | ignored once the engine exists |
| `WebConfig.ParsingIsIdempotent` | ohos_nweb/src/nweb_config_helper.cpp:330-432 | parsing the same list of files again changes no field of the helper, from any state |
| `WebConfig.ClosedStays` | ohos_nweb/src/nweb_config_helper.cpp:365-432 | once a file left a frame rate configuration or a non-zero strategy, no later file and no later parse changes any frame rate field |
| `WebConfig.LastWins` | ohos_nweb/src/nweb_config_helper.cpp:330-432 | for performance entries, load strategy, render mode and native messaging the last file that says anything wins, entry by entry, over the state before |
| `WebConfig.LtpoIdempotent` | ohos_nweb/src/nweb_config_helper.cpp:365-480 | a second parse leaves the first-wins frame rate fields as the first one left them, whether or not the gate closed |
| `WebConfig.GatedParts` | ohos_nweb/src/nweb_config_helper.cpp:365-432 | the gated fields depend on nothing but the gated sections of the files |
| `WebConfig.FilesFoldSeparately` | ohos_nweb/src/nweb_config_helper.cpp:330-363 | a parse appends the files' arguments in order whatever the helper holds, and changes the helper in the same way whatever the lists hold |
| `WebConfig.ArgsInOrder` | ohos_nweb/src/nweb_config_helper.cpp:280-313 | every argument stands in document order: at the position that counts the argument-giving entries before it, in its section and in the sections before |
| `WebConfig.LastPerfEntryWins` | ohos_nweb/src/nweb_config_helper.cpp:624-654 | in document order the last entry with a key decides its value |
| `WebConfig.PerfKeysAreEntries` | ohos_nweb/src/nweb_config_helper.cpp:624-654 | the keys are exactly those of the entries with content |
| `WebConfig.AppsAreNamed` | ohos_nweb/src/nweb_config_helper.cpp:482-500 | an application is allowed exactly when an entry names it |
| `WebConfig.RatesInOrder` | ohos_nweb/src/nweb_config_helper.cpp:461-478 | each valid frame rate stands at the position that counts the valid ones before it |
| `WebConfig.LastSwitchDecides` | ohos_nweb/src/nweb_config_helper.cpp:577-608 | the last switch with content decides |
| `WebConfig.LastGrandchildDecides` | ohos_nweb/src/nweb_config_helper.cpp:780-821 | the last grandchild of the last entry that has any decides |
| `WebConfigMeaning.AtoiReadsPrinted` | ohos_nweb/src/nweb_config_helper.cpp:502-526 | a printed number is read back, behind any white space and before anything that is not a digit |
| `WebConfigMeaning.LastStrategyDecides` | ohos_nweb/src/nweb_config_helper.cpp:502-512 | the last strategy entry with content decides the strategy |
| `WebConfigMeaning.NoStrategyDecidesNothing` | ohos_nweb/src/nweb_config_helper.cpp:502-512 | without a strategy entry with content the section leaves the strategy |
| `WebConfigMeaning.LastThrottleDecides` | ohos_nweb/src/nweb_config_helper.cpp:514-524 | the last entry of each throttle name with content decides its value |
| `WebConfigMeaning.ThrottlesAreNamed` | ohos_nweb/src/nweb_config_helper.cpp:514-524 | values are held for exactly the throttle names that have an entry with content |
| `WebConfigMeaning.LastRatesDecide` | ohos_nweb/src/nweb_config_helper.cpp:434-480 | the last entry with any other name holds the frame rates of that name |
| `WebConfigMeaning.RatesAreNamed` | ohos_nweb/src/nweb_config_helper.cpp:434-480 | frame rates are held for exactly the other names that have an entry |
| `WebConfigMeaning.AllowedAppsAreNamed` | ohos_nweb/src/nweb_config_helper.cpp:482-500 | an application is allowed exactly when some list of applications of the section names it |
| `WebConfigMeaning.RateKeptExactly` | ohos_nweb/src/nweb_config_helper.cpp:461-478 | a frame rate is kept exactly when it is positive and its range, if it has an upper end, is not empty; missing numbers count as 0 |
| `WebConfigMeaning.FirstCloserDecides` | ohos_nweb/src/nweb_config_helper.cpp:401-406 | across files, the first one with frame rates or a strategy other than 0 decides both, whatever later files say |
| `WebConfigMeaning.NoCloserLeavesOpen` | ohos_nweb/src/nweb_config_helper.cpp:401-406 | files without either leave frame rates and strategy empty |
| `WebConfigMeaning.DvsyncOnExactly` | ohos_nweb/src/nweb_config_helper.cpp:407-412 | the dvsync switch is on exactly when it was, or some file switches it on |
| `WebConfigMeaning.FirstUrlStrategyDecides` | ohos_nweb/src/nweb_config_helper.cpp:526-552 | the first load strategy setting decides; without content it decides nothing |
| `WebConfigMeaning.FirstRenderModeDecides` | ohos_nweb/src/nweb_config_helper.cpp:844-880 | the first mode setting decides, unknown contents meaning the default mode |
| `WebConfigMeaning.LastGrandchildEnables` | ohos_nweb/src/nweb_config_helper.cpp:780-821 | native messaging is enabled by a last grandchild that is the setting and says true, and by nothing else |
| `WebConfigMeaning.FirstOrientationDecides` | ohos_nweb/src/nweb_config_helper.cpp:716-758 | the first entry for the application or for all decides about window orientation |
| `WebConfigMeaning.EntryGivesExactly` | ohos_nweb/src/nweb_config_helper.cpp:280-313 | an entry gives an argument exactly when the table has a non-empty one for its name and content |
| `WebConfigMeaning.SectionsAreFirstNamed` | ohos_nweb/src/nweb_config_helper.cpp:365-432 | each part of what a file does comes from the first section with its name |
| `WebConfigMeaning.BaseSectionWins` | ohos_nweb/src/nweb_config_helper.cpp:393-400 | what the base section says about a performance entry wins |
| `WebConfigMeaning.PerformanceSectionOtherwise` | ohos_nweb/src/nweb_config_helper.cpp:393-400 | otherwise the performance section's entry holds |
| `WebConfigMeaning.ArgSections` | ohos_nweb/src/nweb_config_helper.cpp:365-432 | arguments to add come from the first initConfig section, or the root without one, and then from window orientation; those to delete from their own section |
| `WebConfigMeaning.AllArgsAreOfFiles` | ohos_nweb/src/nweb_config_helper.cpp:330-363 | a parse adds and deletes exactly the arguments of its files |
| `WebConfigMeaning.PathsOfList` | ohos_nweb/src/nweb_config_helper.cpp:330-363 | the first path is passed over and one that is too long stands for the default file |
| `WebConfig.SecondParseKeepsArgsExactly` | ohos_nweb/src/nweb_config_helper.cpp:330-363 | a second parse into the same argument lists leaves both unchanged exactly when no file of the list has an argument |
| `WebConfig.SecondParseDoubles` | ohos_nweb/src/nweb_config_helper.cpp:330-363 | a concrete file whose argument a second parse adds once more |
| `WebConfig.NWebConfigHelper.ParseConfig` | ohos_nweb/src/nweb_config_helper.cpp:330-363 | the loop over the path list folds exactly the files from position 1 up to its end, an over-long path standing for the default file; without a list the default file |
| `WebConfig.NWebConfigHelper.ParseWebConfigXml` | ohos_nweb/src/nweb_config_helper.cpp:365-432 | one file: only a WEB root has an effect, and it is that of all its sections with their gates, on the helper and on both argument lists |
| `WebConfig.NWebConfigHelper.GetChildrenNode` | ohos_nweb/src/nweb_config_helper.cpp:315-328 | the named child that no earlier child shares its name with, passing over comments and nameless nodes; none exactly when no child has the name |
| `WebConfig.NWebConfigHelper.ParseWindowOrientationConfig` | ohos_nweb/src/nweb_config_helper.cpp:716-758 | the first entry that names the application or all of them decides, and nothing is added when the application is unknown |
| `WebConfig.NWebConfigHelper.CollectArgs` | ohos_nweb/src/nweb_config_helper.cpp:280-313 | the known arguments of all entries in document order |
| `WebConfig.NWebConfigHelper.ReadConfig` | ohos_nweb/src/nweb_config_helper.cpp:280-313 | appends exactly those to the arguments to add |
| `WebConfig.NWebConfigHelper.ParseDeleteConfig` | ohos_nweb/src/nweb_config_helper.cpp:681-714 | appends exactly those to the arguments to delete |
| `WebConfig.NWebConfigHelper.ParsePerfConfig` | ohos_nweb/src/nweb_config_helper.cpp:624-654 | the last entry of a key wins, over all sections and over the state before |
| `WebConfig.NWebConfigHelper.ParseNWebLTPOConfig` | ohos_nweb/src/nweb_config_helper.cpp:434-480 | the frame rate fields after all entries of the section |
| `WebConfig.NWebConfigHelper.ParseFrameRates` | ohos_nweb/src/nweb_config_helper.cpp:461-478 | the frame rate settings in order, without those whose minimum is not below a non-negative maximum or whose rate is not positive |
| `WebConfig.NWebConfigHelper.ParseNWebLTPOApp` | ohos_nweb/src/nweb_config_helper.cpp:482-500 | adds exactly the listed applications |
| `WebConfig.NWebConfigHelper.ParseNWebDvsync` | ohos_nweb/src/nweb_config_helper.cpp:577-608 | the last switch with content decides; without one the switch stays |
| `WebConfig.NWebConfigHelper.ParseNWebLoadUrlStrategy` | ohos_nweb/src/nweb_config_helper.cpp:526-552 | the first strategy setting decides; without content the field stays |
| `WebConfig.NWebConfigHelper.ParseRenderProcessMode` | ohos_nweb/src/nweb_config_helper.cpp:844-880 | the first mode setting decides; without content the field stays |
| `WebConfig.NWebConfigHelper.ParseNativeMessagingConfig` | ohos_nweb/src/nweb_config_helper.cpp:780-821 | the last entry decides; without one the field stays |
| `ResourceHandler.EveryRun` | interfaces/kits/nativecommon/web_resource_handler.cpp:39-107 | in every run of calls at most one terminal call succeeds, no notification follows it, every error info is destroyed exactly as often as it is created, and a destroyed handler is never passed to the engine or destroyed again |
| `ResourceHandler.RunKeepsInv` | interfaces/kits/nativecommon/web_resource_handler.cpp:39-107 | every run keeps the trace invariant: the same per position, and the finish flag set by any success |
| `ResourceHandler.StepKeepsInv` | interfaces/kits/nativecommon/web_resource_handler.cpp:39-107 | every call keeps the trace invariant, whatever the engine answers |
| `ResourceHandler.AtMostOneSuccess` | interfaces/kits/nativecommon/web_resource_handler.cpp:55-99 | any trace whose successful terminal call is its last notification has at most one successful terminal call, up to any point |
| `ResourceHandler.InfosDestroyedAsCreated` | interfaces/kits/nativecommon/web_resource_handler.cpp:79-99 | every error info is destroyed exactly as often as it is created |
| `ResourceHandler.WebResourceHandler.DidReceive` | interfaces/kits/nativecommon/web_resource_handler.cpp:39-53 | passed on with the engine's result unless finished; then ARKWEB_ERROR_UNKNOWN and no engine call; keeps the trace invariant |
| `ResourceHandler.WebResourceHandler.DidFinish` | interfaces/kits/nativecommon/web_resource_handler.cpp:55-65 | finishes exactly when the engine accepts; refused without an engine call when finished; keeps the trace invariant |
| `ResourceHandler.WebResourceHandler.DidFailWithError` | interfaces/kits/nativecommon/web_resource_handler.cpp:67-77 | the same for a failure |
| `ResourceHandler.WebResourceHandler.DidFailWithErrorInfo` | interfaces/kits/nativecommon/web_resource_handler.cpp:79-99 | creates, uses and destroys one info; without one ARKWEB_ERROR_UNKNOWN and no call; keeps the trace invariant |
| `ResourceHandler.WebResourceHandler.DestoryArkWebResourceHandler` | interfaces/kits/nativecommon/web_resource_handler.cpp:101-107 | destroys a held handler once and forgets it; keeps the trace invariant |
| `ResourceHandler.WebResourceHandler.SetFinishFlag` | interfaces/kits/nativecommon/web_resource_handler.h:37-40 | closes the handler without an engine call; keeps the trace invariant |
| `WebViewValues.Fill` | interfaces/kits/napi/webviewcontroller/webview_javascript_result_callback.cpp:1101-1204 | for every nested plan, driving the builder depth first gives an object graph with disjoint subtrees and no pending child whose getters show exactly the planned value |
| `WebViewValues.FillList` | interfaces/kits/napi/webviewcontroller/webview_javascript_result_callback.cpp:1137-1148 | a list shows the planned items in order |
| `WebViewValues.FillDict` | interfaces/kits/napi/webviewcontroller/webview_javascript_result_callback.cpp:1185-1204 | a dictionary shows exactly the planned bindings |
| `WebViewValues.AddItem` | interfaces/kits/napi/webviewcontroller/webview_javascript_result_callback.cpp:1144-1146 | new child, filled, saved: the list shows one value more, all earlier ones as before, and is disjoint and without pending child again |
| `WebViewValues.AddEntry` | interfaces/kits/napi/webviewcontroller/webview_javascript_result_callback.cpp:1200-1202 | the same for a key, replacing what was there |
| `WebViewValues.LastEntryWins` | ohos_nweb/src/webview_value.cpp:121-131 | a key shows the entry saved last under it |
| `WebViewValues.KeysAreSaved` | ohos_nweb/src/webview_value.cpp:121-131 | the keys shown are exactly the keys saved |
| `WebViewValues.WebViewValue.NewChildValue` | ohos_nweb/src/webview_value.cpp:111-119 | a fresh blank child becomes the pending one, replacing any other; nothing else changes |
| `WebViewValues.WebViewValue.SaveListChildValue` | ohos_nweb/src/webview_value.cpp:133-142 | the pending child is appended and cleared; without one nothing changes |
| `WebViewValues.WebViewValue.SaveDictChildValue` | ohos_nweb/src/webview_value.cpp:121-131 | the pending child is bound to the key, replacing an earlier binding, and cleared; without one nothing changes |

## Left out

Weaker than, or narrower than, the source:

- AudioDevices.AudioSystemManager.GetDeviceIdByDescriptor: ids are unbounded; the 32-bit id type of the source would overflow after 2^31 slots.
- FrameCopy.CopyFrame: the memory behind the buffer, up to the end of the accepted rows, is taken to be addressable, so that a row accepted behind the end has a place to go; what a refused `memcpy_s` leaves in the first row's place is not stated.
- FrameCopy.OutputFrameCallback: makes the same assumption.
- FrameCopy.MemcpyS: states the contract of `memcpy_s`, which is not part of the repository; its own upper limit on sizes is not modelled.
- BrowserIpc.DecodeEncode: a parcel is a list of typed cells; the byte layout of the parcel library is not modelled, and a write fails only for a null object, not for lack of memory.
- BrowserIpc.BrowserHost.OnRemoteRequest: for the same reason holds for every list of typed cells, not for bytes read at another type than written.
- WebConfig.NWebConfigHelper.CollectArgs: the table of known arguments is a parameter, so its thirty entries are not checked.
- WebConfig.NWebConfigHelper.ParseWebConfigXml: the copies of values into system parameters (ohos_nweb/src/nweb_config_helper.cpp:670-679) are not modelled; `atoi` does not overflow; the application's bundle name does not change.
- WebViewValues.Fill: drives the builder for every plan; the depth and length limits of the script bindings, which only shorten what is built, are not modelled.
- EngineVersion.EngineSelector.PreloadArkWebLibForBrowser: reading and parsing the cloud configuration file is an arbitrary update of the variables it can write.
- CloudVersion.CheckCloudCfgVersion: opening the files and reading their first line is a parameter.

Not modelled:

- How device descriptors are compared: equality of descriptors is any equivalence that implies equal type and equal MAC.
- Audio renderer and capturer, device change callbacks, audio volume and interrupt handling.
- Camera capability enumeration, exposure and focus queries, the preview surface's buffers, error event reports.
- The data migration list, the playground constructor, dlopen, mount and RELRO code in arkweb_utils.
- Sleeps between start attempts, waiting on fences, and threads: locked sections are atomic steps in any order.
- The kernel's window reference counting and the host's `surface_map_` for passed surfaces; the client adapter's window maps.
- The contents of the initialisation arguments passed to the engine.
- The plain value fields of `WebViewValue` (64-bit integer, arrays, error name and message, binary vector): each is one setter and one getter.
- The scheme handler and download wrappers, enumeration maps and value classes: one branch each.
