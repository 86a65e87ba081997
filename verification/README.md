# Zephyr OTA example application for mender-mcu-client, modelled in Dafny

The application is one C file, `src/main.c`, which runs on a Zephyr board and
hands callbacks to the mender-mcu-client library. This project models what that
file decides:

- **Authentication callbacks** (`Authentication`). The failure callback keeps a
  counter of failed authentications. Once the counter reaches
  `CONFIG_EXAMPLE_AUTHENTICATION_FAILS_MAX_TRIES` while the running image is
  still unconfirmed, it asks the client for a restart, and the bootloader then
  rolls back. The success callback activates the troubleshoot add-on first and
  then confirms the image.
- **The hello-world LLEXT module** (`HelloWorldModule`). The artifact's chunks
  are collected into one growing heap buffer. The buffer is loaded when the
  deployment reaches "installing" and freed on "installing" or "failure".
- **The troubleshoot file-transfer callbacks** (`FileTransfer`). This covers
  the mode that `stat` reports (0100000 or 0040000) and the flags `open` passes
  to the file system (read-only for `"rb"`, create and write otherwise).
- **The main thread and its two event bits** (`Lifecycle`). Main brings up
  DHCP and waits for an IPv4 address. It then initialises the client, registers
  the artifact type and add-ons, reads the configuration and writes the
  inventory. Next it activates the client and waits for a restart request.
  Finally it deactivates the client, exits it and reboots. The blocking waits
  are stages that do not advance until their bit is set.
- **The MAC identity string** (`MacAddress`). The six link-address bytes are
  printed as `xx:xx:xx:xx:xx:xx` into an 18-byte buffer.
- **The whole process** (`Application`). This is one record holding main's
  progress, the event bits, the retry counter, whether the running image is
  confirmed, and the module buffer. Main's
  steps and the callbacks can arrive in any interleaving, and invariants are
  proved over every run.

Modelling choices:

- Outcomes of calls into code outside this file are parameters. These are
  `mender_flash_is_image_confirmed`, `mender_flash_confirm_image`,
  `mender_troubleshoot_activate`, `realloc`, `malloc`, `llext_load`,
  `fs_stat`, `fs_open`, `mender_client_init`, the registrations and
  `mender_client_activate`.
- The flash layer's confirmation state is part of the process record.
  `mender_flash_is_image_confirmed()` answers with it. It is set when
  `mender_flash_confirm_image()` returns OK in the success callback, and
  nothing clears it. Whether the booted image starts confirmed is a
  parameter of the power-on state.
- The `#ifdef` build options are a `Lifecycle.Build` record. The record also
  says whether `assert()` evaluates its argument.
- main's set-up phase exists in two texts, chosen by `Lifecycle.SetupText`.
  `CallsInsideAssert` is the code as written, with the client calls inside
  `assert()`. `CallsHoisted` makes each call first and asserts its result
  afterwards (see "Findings"). `Application.Config` carries the choice. The
  process invariants are proved for both texts, and the normal-life run uses
  the code as written.
- Callbacks may arrive at any point of a run, including before main has
  registered the network handler (lines 500-501) or initialised the client
  (line 553). The real program cannot receive them that early. The model
  therefore allows more runs than the program has, so every property proved
  over all runs also holds for the program's runs.

Facts about the code that the model keeps:

- The failure counter is never reset by a successful authentication. Only a
  restart of the process resets it.
- Every directory entry that is not a regular file is reported as 0040000.
- The application has no begin/write/end transfer session of its own. The only
  multi-chunk transfer is the hello-world module buffer.
- Nothing in the code guards against calling `mender_client_exit()` twice. The
  model proves instead that main calls it at most once.

## Model

| member | source | states |
|---|---|---|
| Authentication.OnFailure | src/main.c:198-217 | A confirmed image always gets OK, and the counter is not touched. An unconfirmed image adds exactly one to the counter. The reply is FAIL (restart, hence rollback) exactly when the image is unconfirmed and the new count has reached the threshold. The reply is only ever OK or FAIL. |
| Authentication.OnSuccess | src/main.c:168-192 | Troubleshoot activation is attempted exactly when the add-on is built in. The image is confirmed exactly when activation was not needed or succeeded. A failed activation's error is returned without confirming. When confirmation happens it is the last call and decides the result. The result is OK exactly when both steps succeed. No call is made twice. |
| Authentication.AfterCountsPendingRejections | src/main.c:201-216 | Over any run of attempts, the counter grows by exactly the number of rejections that arrived while the image was unconfirmed. Successes and rejections of a confirmed image leave it alone, and nothing resets it. |
| Authentication.FailureIsSticky | src/main.c:209-216 | After a failure has asked for the restart, every later failure of an unconfirmed image asks again, whatever attempts came in between. |
| Authentication.RollbackThreshold | src/main.c:209-216 | For a run of failures of an unconfirmed image, the i-th reply is FAIL exactly when the starting count + i + 1 reaches the threshold. |
| Authentication.ThreeStrikes | src/main.c:209-216 | With a threshold of three and a fresh process, the first two failures are tolerated and the third asks for the restart. |
| HelloWorldModule.OnChunk | src/main.c:457-486 | A NULL chunk is ignored with OK. A stored chunk is appended after the bytes already collected, and the size grows by its length. A failed reallocation frees everything collected, sets the size to 0 and returns FAIL. |
| HelloWorldModule.OnDeploymentStatus | src/main.c:225-282 | With LLEXT built in and a non-empty buffer: "installing" hands exactly the collected bytes to the loader, frees the buffer, and fails exactly when the load fails; "failure" frees the buffer without loading and returns OK. Every other case leaves the buffer alone and returns OK. |
| HelloWorldModule.FeedAppendsAll | src/main.c:469-483 | Without allocation failures, the buffer holds its old contents followed by every chunk in arrival order. |
| HelloWorldModule.DownloadThenInstall | src/main.c:236-266 | A whole download into an empty buffer, then "installing", loads exactly the concatenated payload. The memory is freed whatever the load's outcome. |
| FileTransfer.ModeRoundTrip | src/main.c:357 | The reported mode has only file-type bits set, and a receiver reads it back as the entry's own type. |
| FileTransfer.Stat | src/main.c:328-363 | A failed fs_stat gives FAIL with nothing reported. The result is OK exactly when the entry exists and every requested out-value was allocated. The size is the entry's size, reported exactly when requested and allocated. It stays reported even if the later mode allocation fails. The mode is reported only if the size step did not fail first. The mode is 0100000 exactly for a regular file and 0040000 for anything else. |
| FileTransfer.OnlyRbReads | src/main.c:382-394 | Exactly the mode string "rb" opens read-only. Every other string opens with create and write together, and never with read. |
| FileTransfer.Open | src/main.c:365-398 | A failed allocation fails without touching the file system. Otherwise fs_open gets {read} exactly for "rb" and {create, write} for any other mode. The result is OK, and the handle is written, exactly when both allocation and opening succeed. |
| Lifecycle.Post | src/main.c:68-70 | Posting sets the bit and keeps every bit already set. It never clears one. |
| Lifecycle.PostIsIdempotent | src/main.c:68-70 | Posting a bit twice is the same as posting it once. Posting a bit that is already set changes nothing. |
| Lifecycle.OnNetEvent | src/main.c:117-130 | The network bit becomes set exactly when it already was or the event is an IPv4 address being added. The restart bit is untouched. |
| Lifecycle.OnRestart | src/main.c:288-295 | The restart bit is set, the network bit is untouched, and the callback returns OK. |
| Lifecycle.SetupCalls | src/main.c:553-626 | The set-up calls of a build are exactly the ones it compiles in. Initialisation is always there. The artifact type is there exactly with LLEXT, and each add-on registration, configuration read and inventory write exactly with its add-on. They come in source order. Only the two calls outside assert() are unasserted. A checked call succeeds exactly when its client call does, and the configuration read and inventory write never stop main. |
| Lifecycle.InitComesFirst | src/main.c:553 | The first set-up call of every build is mender_client_init, and it is checked. |
| Lifecycle.PerformAsWritten | src/main.c:553-598 | With assertions on, the code as written makes the same calls as the hoisted text and halts exactly when some asserted call fails. With assertions compiled out, main never halts, and exactly the calls not written inside assert() are made, in order. |
| Lifecycle.Perform | src/main.c:553-598 | Each call is made first and its result asserted afterwards. The calls are made in order. All of them are made unless an enabled assertion fails. A halt happens at the first failing asserted call, which is the last call made. |
| Lifecycle.Configure | src/main.c:553-632 | The halt happens exactly when an enabled assertion fails. Otherwise the trace is the set-up calls followed by one activation. Main then waits for a restart exactly when activation succeeded, and otherwise goes to the release. |
| Lifecycle.ConfigureAsWritten | src/main.c:553-632 | The halt happens exactly when an enabled assertion fails, so a build without assertions never halts. A main that does not halt waits for the restart exactly when activation succeeded, and otherwise goes to the release. Without assertions, the trace is the calls written outside assert(), in order, followed by one activation. |
| Lifecycle.AsWrittenWithAssertions | src/main.c:553-632 | With assertions enabled, the code as written and the hoisted text make the same calls and end in the same stage. |
| Lifecycle.UncheckedSetupCalls | src/main.c:600-626 | Of main's set-up, only the configuration read and the inventory write are written outside assert(). Each one a build compiles in is made. |
| Lifecycle.UninitialisedActivation | src/main.c:553-632 | In every build without assertions, the code as written ends with mender_client_activate. Before that it makes only the configuration read and the inventory write that the build compiles in. It never calls mender_client_init, never registers the artifact type and never registers an add-on. |
| Lifecycle.InitAndRegisterBeforeActivate | src/main.c:553-632 | When the checked calls are made outside assert(), every build that reaches activation has initialised the client first. It has also made each registration it compiles in before activating. |
| Lifecycle.ConfigureText | src/main.c:553-632 | Either text of the set-up halts exactly on a failed enabled assertion. Otherwise it waits for the restart exactly when activation succeeded, and otherwise goes to the release. It makes only set-up calls and the activation. |
| Lifecycle.ConfigureStep | src/main.c:537-632 | The configuring stage only extends main's history and makes no teardown call. It halts exactly on a failed enabled assertion. Otherwise it waits for the restart exactly when activation succeeded and releases when it failed. It is waiting exactly when the client was activated. |
| Lifecycle.MainStep | src/main.c:494-648 | Main only extends its history. The two waits make no progress until their bit is set. Configuring halts exactly on a failed enabled assertion of the build's set-up; otherwise it waits for the restart when activation succeeded and goes straight to the release when it failed. The release always reboots, appending deactivate, exit, reboot. The reboot is reached only from the release, and no other step makes a teardown call. A rebooted or halted main does not move. |
| Lifecycle.StepKeepsConsistent | src/main.c:628-645 | Every step keeps the teardown calls absent until the reboot. They are then the last three calls, in the order deactivate, exit, reboot. A main waiting for the restart has activated the client. |
| MacAddress.DigitRoundTrip | src/main.c:518 | Each lower-case hex digit printed by %x reads back as its value, and every digit character reads back to itself. |
| MacAddress.Hex2RoundTrip | src/main.c:518 | "%02x" of a byte reads back as that byte. Every two-digit string that parses is the printing of its value. |
| MacAddress.Format | src/main.c:516-524 | The MAC string of six bytes has 17 characters. |
| MacAddress.GroupsRoundTrip | src/main.c:518-524 | The colon-separated groups of any bytes parse back to those bytes. |
| MacAddress.ParsedGroupsRoundTrip | src/main.c:518-524 | Every string the group parser accepts is the printing of the bytes it returns. |
| MacAddress.FormatParseInverse | src/main.c:516-524 | Printing and parsing are mutually inverse: the printed MAC identifies the address exactly, in both directions. |
| MacAddress.Truncate | src/main.c:516-517 | snprintf keeps a prefix of at most cap - 1 characters, and keeps the whole string when it fits. |
| MacAddress.MacFitsBuffer | src/main.c:513-524 | The 18-byte buffer holds the whole address string, so the identity is never truncated. |
| Application.Step | src/main.c:117-295 | The counter never goes down, and only a failed authentication moves it. A failure leaves the counter alone when the image is confirmed and spends one try when it is pending. Only a success confirms the image: exactly when the troubleshoot add-on is absent or activated and the confirmation succeeds. Nothing unconfirms it. Event bits are never cleared. Main's history only grows, and only main's own steps change main. Only the module callbacks touch the module buffer. |
| Application.BootSatisfiesInvariant | src/main.c:68-83 | The power-on state (no bits, counter 0, no buffer, main not started, image confirmed or not) satisfies the run invariant. |
| Application.StepKeepsInvariant | src/main.c:494-648 | No input breaks the invariant. Main's history matches its stage. Main has passed the network wait only once the network was announced. A main whose activation succeeded releases only after a restart request. |
| Application.RunKeepsInvariant | src/main.c:494-648 | The invariant holds after every interleaving of main's steps and callbacks. |
| Application.RunOnlyGrows | src/main.c:201-210 | Over any run the counter never decreases and no event bit is lost. Main's history is only extended, and a rebooted main stays as it is. |
| Application.ShutdownHappensOnce | src/main.c:628-645 | From power-on, main reboots exactly when its history contains the reboot. Deactivate, exit and reboot then appear once each, in that order, as the last three calls. A main whose activation succeeded gets there only after a restart was requested. |
| Application.RollbackRequestStands | src/main.c:198-217 | Once a failure of the pending image has asked for the restart, no interleaving of other inputs makes a later failure return OK while the image is still pending. |
| Application.ConfirmedImageStands | src/main.c:184-206 | Once the image is confirmed it stays confirmed over any run. Every later failure, whatever happened in between, returns OK and leaves the counter as it was. |
| Application.SuccessThenFailure | src/main.c:168-217 | For a pending image, a success followed by a failure: if the success callback returned OK, the image is now confirmed and the failure returns OK without spending a try; otherwise the image stays pending and the failure spends a try. |
| Application.FailedTroubleshootKeepsPending | src/main.c:175-180 | A success whose troubleshoot activation fails returns before confirming, so the image's state stays as it was. |
| Application.MainAdvances | src/main.c:498-505 | Main leaves its first stage at once and leaves the network wait as soon as the bit is set. The callbacks' state is untouched. |
| Application.ConfiguringSucceeds | src/main.c:553-635 | When every client call succeeds, configuring ends in the restart wait, with either text of the set-up. |
| Application.ReleaseReboots | src/main.c:637-645 | From the release, one step of main reboots whatever the event bits, appending deactivate, exit and reboot. The callbacks' state is untouched. |
| Application.FailedActivationReboots | src/main.c:629-645 | When activation fails and no enabled assertion failed, main goes straight to the release without waiting for a restart request. The next step reboots, appending the teardown, and the event bits are unchanged. |
| Application.AsWrittenNeverInitialises | src/main.c:553-632 | In the process running the code as written without assertions, the configuring step activates the client. It never initialises the client and never makes a registration, whatever the calls' outcomes. |
| Application.StartUp | src/main.c:494-635 | Power-on, an IPv4 address and three steps of main lead to the restart wait with the counter, the image's state and the buffer untouched. |
| Application.ModuleInstalled | src/main.c:168-266 | A successful authentication confirms the image. Two chunks and "installing" then leave the module memory freed and main where it was. |
| Application.RestartAndReboot | src/main.c:634-645 | From the restart wait, a restart request and two steps of main end rebooted. |
| Application.HappyPath | src/main.c:494-648 | The normal life of a full build booting a pending image ends rebooted, with the image confirmed, the module memory freed and the counter at 0. |

## Left out

- Logging, printing of the DHCP lease (lines 93-109), and the configuration and inventory print loops: these are output only.
- The file-transfer read, write and close callbacks (lines 400-450): they pass bytes between the client and the file system and decide nothing.
- The LLEXT symbol lookup and the call of `hello_world()` after a successful load: this is foreign code that the model cannot see.
- The artifact-name `snprintf` at line 532: its inputs are build constants.
- The contents of the TLS certificate, configuration and inventory keystores: main's calls with them are modelled, but their data is not.
- Kernel event waits and concurrency: a wait is a stage that does not advance, and interleaving is any sequence of inputs.
- The network connect and release callbacks (lines 136-162): they only return OK.
- The numeric values of `mender_deployment_status_t`: the client header that defines them is not part of this model.
- Application.ShutdownHappensOnce: a failed enabled assertion halts main, so not every run reaches the reboot.
- Authentication.OnFailure: does not model the C `int` overflow of `tries`, which would need 2^31 failed authentications in one process.
- FileTransfer.FlagsFor: compares the mode as a whole string, where `strcmp` (line 382) stops at the first NUL. The model's mode strings stand for C strings and so contain no NUL. A Dafny string with a NUL in it, such as `"rb\0x"`, corresponds to no C call, and `FlagsFor` gives it create and write.
- The `assert(NULL != …)` checks on pointers at lines 331, 368-369, 499 and 515: the model's values are never NULL, so these halts cannot happen in it.
- HelloWorldModule.OnChunk: does not model `size_t` wrap-around of the module size, because the buffer is bounded by the board's RAM long before then.

## Findings

| source | as written | input that shows it | evidently intended | confidence | as-written member | corrected member |
|---|---|---|---|---|---|---|
| src/main.c:553-596 | `mender_client_init`, `mender_client_register_artifact_type` and the three `mender_client_register_addon` calls are written inside `assert()`, so they vanish when assertions are compiled out. Assertions are compiled out under Zephyr's minimal libc with `CONFIG_ASSERT=n`, or with `NDEBUG`. | A build with LLEXT and without assertions: the trace is only `mender_client_activate`, with no init and no registration | Make each call, keep its result, and assert the result afterwards, so that every build initialises the client and registers before activating | medium, not executed | Lifecycle.ConfigureAsWritten, Lifecycle.UninitialisedActivation | Lifecycle.Configure, Lifecycle.InitAndRegisterBeforeActivate |
