# Terminal API emulator — a Dafny model

This project models the core of the gold-evaluation kiosk's **terminal API
emulator** (`terminal/cmd/api-emulator` of goldexrobot/core.integration). The
emulator stands in for a real kiosk and serves the terminal API over
JSON-RPC. An operator at a console can inject faults into it.

The model covers:

- **The emulated controller** (`Api.Controller`).
  - It holds:
    - seven fault flags plus two evaluation flags;
    - the hardware "business delay" multiplier, stored as thousandths;
    - the session of the evaluation in progress;
    - the backend it delegates to.
  - A hardware step first takes its simulated delay, then fails if the
    hardware flag is set. The network and the other flags are then checked
    in the source's order, and only then is the backend called.
    `FinalizeEval` and the storage and UI methods have no hardware step;
    the toggles and the plain hardware steps call no backend.
  - Every simulated delay is recorded in a ghost log, `sleeps`.
  - A new evaluation takes the first free storage cell in the order A1..J9
    (`CellSearch`).
- **The backend connector** (`Backend`).
  - `Backender` is either the in-memory mock or the remote client.
  - Every call through it is recorded, with its reply, in a ghost log
    `calls`. This is how "no backend call" is stated.
  - The mock (`MockClient`) keeps a cell→domain occupancy table with distinct
    refusal reasons. It also keeps a wrapping uint64 evaluation counter and
    the last classification.
  - The purity classification into millesimal fineness and carat label is
    shared with the controller's evaluation generator (`Fineness`,
    `Emulation`).
- **The JSON-RPC server codec** (`JsonRpc`).
  - Dotted method names are rewritten to service methods: `eval.new` becomes
    `RPC.EvalNew`.
  - Each request gets an internal sequence number. The client's id is parked
    in a pending table, and each response echoes it back at most once.
  - This follows sections 4 and 5 of the JSON-RPC 2.0 specification, with the
    source's deviations:
    - no `"jsonrpc":"2.0"` member;
    - errors are plain strings;
    - a request without an id is answered with a `null` id.
- **The console** (`Console`, `Activity`, `Completer`, `Helpers`):
  - the argument accessors and the 32-bit decimal parses;
  - the command dispatcher that turns `break …`, `heal`, `delay` and `reset`
    into controller calls;
  - the help-tree printer;
  - the log hook that formats entries and routes them by level.

Imperative source code is modelled as imperative Dafny:

- the controller, the mock, the codec and the help buffer are classes whose
  methods update their fields;
- the loops of the source are `while` loops:
  - the cell search;
  - grouping the occupancy table;
  - building the method name;
  - sorting and writing the log fields;
  - printing children.

Each such method is proved against a specification function, and the
properties of that function are proved as lemmas. Pure code, such as the
classification, the argument accessors and level routing, is modelled as
functions.

Go's integer widths are written out:

- the mock's counter and the codec's sequence number wrap modulo 2^64;
- `strconv` parses check the 32-bit ranges;
- `uint64(1000*m)` is a floor after clamping.

Purity, weights and the multiplier are exact `real`s.

## Model

| member | source | states |
|---|---|---|
| Common.TrimSpaceEmptyIffBlank | terminal/cmd/api-emulator/console/prefix_completer.go:30 | `strings.TrimSpace` leaves nothing exactly when the name is all Unicode white space |
| Common.TrimSpaceShape | terminal/cmd/api-emulator/helpers/logrus_helper.go:71 | trimming keeps a contiguous middle slice, cuts only white space from each end, and what remains neither starts nor ends with white space |
| Common.DigitsValueOfNatToString | terminal/cmd/api-emulator/api/controller_emul.go:174 | the decimal rendering that `%d` produces reads back as the number it renders |
| Fineness.CaratCount | terminal/cmd/api-emulator/api/controller_emul.go:174 | the carat count is the ceiling of purity·24/100: the least integer at or above it |
| Fineness.MillesimalIsHighestReachedGrade | terminal/cmd/api-emulator/api/controller_emul.go:158-172 | grade 0 iff purity < 37; otherwise the grade is one of 9999/999/925/750/585/375, its floor is reached, and no higher grade's floor is reached |
| Fineness.MillesimalMonotone | terminal/cmd/api-emulator/api/controller_emul.go:158-172 | a purer item never gets a lower grade |
| Fineness.CaratLabelReadsBack | terminal/cmd/api-emulator/api/controller_emul.go:174 | for every purity, negative included: the label is a minus sign exactly when the carat count is negative, then the decimal digits of its magnitude, then `K` |
| Fineness.ClassificationExamples | terminal/cmd/api-emulator/backend/mock_client.go:47-63 | 99.95 → 9999 and "24K", 92 → 925 and "23K", 40 → 375, 36.99 → 0 |
| Fineness.Millesimal | terminal/cmd/api-emulator/api/controller_emul.go:158-172 | the grade is 0 or one of the six grades |
| Fineness.Carat | terminal/cmd/api-emulator/api/controller_emul.go:174 | the label is at least two characters long and ends in `K` |
| Emulation.ScaledMult | terminal/cmd/api-emulator/api/controller_emul.go:74-82 | the stored multiplier never exceeds 10·1000 |
| Emulation.ScaledMultClamps | terminal/cmd/api-emulator/api/controller_emul.go:74-82 | negative requests store 0, requests of 10 or more store 10000, and in between the stored value is floor(1000·m) |
| Emulation.ScaledMultExamples | terminal/cmd/api-emulator/api/controller_emul.go:74-82 | −1 → 0, 15 → 10000, 1 → 1000, 2.5 → 2500 |
| Emulation.HardwareDelayExact | terminal/cmd/api-emulator/api/controller_emul.go:128-135 | the delay is timeUnits·m·10^6 ns exactly, zero iff timeUnits or m is zero, and timeUnits whole seconds under the default multiplier |
| Emulation.HardwareDelayMonotone | terminal/cmd/api-emulator/api/controller_emul.go:128-135 | more time units or a larger multiplier never shorten the delay |
| Emulation.HardwareDelay | terminal/cmd/api-emulator/api/controller_emul.go:128-135 | zero when there are no time units or no multiplier; otherwise the floor of timeUnits·10^9·m divided by the multiplier's divider |
| Emulation.RandomEvaluationWellFormed | terminal/cmd/api-emulator/api/controller_emul.go:146-190 | for every random draw: purity in [37.50, 99.99], so the grade is never 0; the spectrum is the single entry alloy→purity; alloy is ag or au; risky iff confidence < 0.88 |
| Emulation.RandomEvaluation | terminal/cmd/api-emulator/api/controller_emul.go:146-190 | grade and carat follow the purity, the spectrum is the single entry alloy→purity, and the weight is the draw given |
| CellSearch.StorageCellsOrderShape | terminal/cmd/api-emulator/api/controller_hardwarer.go:14-25 | there are 90 cells, each with a two-character name, so "" never names a cell |
| CellSearch.FirstFreeFromIsFirstFit | terminal/cmd/api-emulator/api/controller_hardwarer.go:78-99 | from position i, the search yields "" iff every later cell is occupied; otherwise it yields a free cell with every cell before it occupied |
| CellSearch.FirstFreeIsFirstFit | terminal/cmd/api-emulator/api/controller_hardwarer.go:78-99 | the assigned cell is the first unoccupied one in A1..J9, and none is assigned iff all 90 are occupied |
| CellSearch.FirstFree | terminal/cmd/api-emulator/api/controller_hardwarer.go:78-99 | the cell given is "" or one no domain occupies |
| CellSearch.FirstFreeOfNothingIsA1 | terminal/cmd/api-emulator/api/controller_hardwarer.go:14-25 | with nothing occupied, the cell given is A1 |
| CellSearch.NextFreeCell | terminal/cmd/api-emulator/api/controller_hardwarer.go:78-99 | the nested loops over cells, domains and lists return exactly the first-fit cell, whatever order the domains are visited in |
| Backend.ListsOneMore | terminal/cmd/api-emulator/backend/mock_client.go:23-29 | appending one more cell to its domain's list keeps the listing exact and duplicate-free |
| Backend.ListsAll | terminal/cmd/api-emulator/backend/mock_client.go:23-29 | once every cell is visited, the listing is exactly the occupancy table |
| Backend.OccupyVerdict | terminal/cmd/api-emulator/backend/mock_client.go:87-95 | occupation is refused iff the cell is already in the table |
| Backend.ReleaseVerdict | terminal/cmd/api-emulator/backend/mock_client.go:97-113 | release is granted iff the cell is in the table and, under the strict check, its domain matches |
| Backend.RefusalReasonsDistinct | terminal/cmd/api-emulator/backend/mock_client.go:87-113 | an occupy refusal says "already occupied"; a release refusal says "not occupied" iff the cell is absent |
| Backend.OccupyThenReleaseRestores | terminal/cmd/api-emulator/backend/mock_client.go:87-113 | occupying a free cell and then releasing it (any domain when not strict) is granted and restores the table |
| Backend.NonStrictReleaseIgnoresDomain | terminal/cmd/api-emulator/backend/mock_client.go:97-113 | without the strict check, the verdict and the new table do not depend on the domain named |
| Backend.MockClient.constructor | terminal/cmd/api-emulator/backend/mock_client.go:16-21 | a fresh mock has counter 0, a zero last result and an empty table |
| Backend.MockClient.OccupiedCells | terminal/cmd/api-emulator/backend/mock_client.go:23-29 | every occupied cell is listed exactly once under its recorded domain, and nothing else is listed |
| Backend.MockClient.NewEval | terminal/cmd/api-emulator/backend/mock_client.go:31-34 | the counter goes up by one (mod 2^64) and the new value is the id |
| Backend.MockClient.EvaluateSpectrum | terminal/cmd/api-emulator/backend/mock_client.go:36-76 | never rejects; the alloy and purity come from the spectrum (zero for an empty one); grade and carat follow the purity; confidence 0.98, not risky; the result is remembered |
| Backend.MockClient.EvaluateHydro | terminal/cmd/api-emulator/backend/mock_client.go:78-80 | never rejects |
| Backend.MockClient.FinalizeEvaluation | terminal/cmd/api-emulator/backend/mock_client.go:82-85 | returns the remembered last result and never rejects |
| Backend.MockClient.OccupyStorageCell | terminal/cmd/api-emulator/backend/mock_client.go:87-95 | forbidden iff the cell is taken, with that reason; otherwise cell→domain is recorded; the table is the verdict's table |
| Backend.MockClient.ReleaseStorageCell | terminal/cmd/api-emulator/backend/mock_client.go:97-113 | forbidden iff the release verdict refuses, with its reason; otherwise exactly that cell is removed |
| Backend.MockClient.IntegrationUIMethod | terminal/cmd/api-emulator/backend/mock_client.go:115-119 | echoes the body with status 200 |
| Backend.Backender.Mock | terminal/cmd/api-emulator/backend/backend.go:6-15 | the interface backed by the given mock, with an empty call log |
| Backend.Backender.Remote | terminal/cmd/api-emulator/backend/backend.go:6-15 | the interface backed by the remote client, with an empty call log |
| Backend.Backender.OccupiedCells | terminal/cmd/api-emulator/backend/backend.go:7 | logs the call; an error comes with no domains; through the mock it lists the occupancy exactly |
| Backend.Backender.NewEval | terminal/cmd/api-emulator/backend/backend.go:8 | logs the call; an error comes with id 0; through the mock it is the mock's counter step, and nothing else of the mock changes |
| Backend.Backender.EvaluateSpectrum | terminal/cmd/api-emulator/backend/backend.go:9 | logs the call; an error or rejection comes with a zero result; through the mock there is no error or rejection, an empty spectrum gives alloy "" and purity 0, otherwise the alloy and purity are an entry of the spectrum, grade and carat follow the purity, confidence 0.98, not risky |
| Backend.Backender.EvaluateHydro | terminal/cmd/api-emulator/backend/backend.go:10 | logs the call; through the mock there is no error and no rejection |
| Backend.Backender.FinalizeEvaluation | terminal/cmd/api-emulator/backend/backend.go:11 | logs the call; through the mock it returns the mock's last result |
| Backend.Backender.OccupyStorageCell | terminal/cmd/api-emulator/backend/backend.go:12 | logs the call; an error comes with no refusal and an empty reason; through the mock there is no error, it is forbidden iff the cell is taken, the reason is the verdict's reason when forbidden and empty otherwise, and the table is updated as the mock's verdict says |
| Backend.Backender.ReleaseStorageCell | terminal/cmd/api-emulator/backend/backend.go:13 | logs the call; an error comes with no refusal and an empty reason; through the mock there is no error, it is forbidden iff the release verdict refuses, the reason is the verdict's reason when forbidden and empty otherwise, and the table is updated as the mock's verdict says |
| Backend.Backender.IntegrationUIMethod | terminal/cmd/api-emulator/backend/backend.go:14 | logs the call; an error comes with an empty body and status 0; through the mock it echoes the body with 200 |
| Api.Controller.constructor | terminal/cmd/api-emulator/api/controller.go:43-66 | the given backend is stored; multiplier 1·1000; all nine flags 0; zero session; a fresh RPC handle |
| Api.Controller.RPC | terminal/cmd/api-emulator/api/controller.go:69-71 | every call returns the handle made at construction |
| Api.Controller.HealAPI | terminal/cmd/api-emulator/api/controller_emul.go:64-72 | the seven fault flags become 0; its frame allows nothing else to change |
| Api.Controller.SetHardwareBusinessMult | terminal/cmd/api-emulator/api/controller_emul.go:74-82 | the stored multiplier is the clamped, scaled request `ScaledMult(m)` |
| Api.Controller.ToggleFailOnHardwareAccess | terminal/cmd/api-emulator/api/controller_emul.go:84-89 | flips the hardware flag between 0 and 1 and reports whether it is now 1 |
| Api.Controller.ToggleFailOnNetworkAccess | terminal/cmd/api-emulator/api/controller_emul.go:91-96 | flips the network flag and reports whether it is now 1 |
| Api.Controller.ToggleFailOnStorageRoomCheck | terminal/cmd/api-emulator/api/controller_emul.go:98-103 | flips the no-room flag and reports whether it is now 1 |
| Api.Controller.ToggleFailOnStorageAccess | terminal/cmd/api-emulator/api/controller_emul.go:105-110 | flips the access-forbidden flag and reports whether it is now 1 |
| Api.Controller.ToggleEvalRejection | terminal/cmd/api-emulator/api/controller_emul.go:112-117 | flips the rejection flag and reports whether it is now 1 |
| Api.Controller.ToggleWeighingScaleUnstable | terminal/cmd/api-emulator/api/controller_emul.go:119-124 | flips the unstable-scale flag and reports whether it is now 1 |
| Api.Controller.AccessHardware | terminal/cmd/api-emulator/api/controller_emul.go:128-140 | the delay for the step is taken first; then it fails, with "emulated hardware failure", iff the hardware flag is set |
| Api.Controller.AccessNetwork | terminal/cmd/api-emulator/api/controller_emul.go:142-144 | the network is up iff the network flag is 0 |
| Api.Controller.GenerateEvaluationData | terminal/cmd/api-emulator/api/controller_hardwarer.go:113 | the new session carries the evaluation id and the assigned cell |
| Api.Controller.Operational | terminal/cmd/api-emulator/api/controller_hardwarer.go:29-31 | operational iff the module-broken flag is 0 |
| Api.Controller.Broken | terminal/cmd/api-emulator/api/controller_hardwarer.go:33-36 | the module-broken flag becomes 1 |
| Api.Controller.OpenInlet | terminal/cmd/api-emulator/api/controller_hardwarer.go:40-42 | a 2-unit hardware step that fails iff the hardware flag is set |
| Api.Controller.CloseInlet | terminal/cmd/api-emulator/api/controller_hardwarer.go:44-46 | a 2-unit hardware step that fails iff the hardware flag is set |
| Api.Controller.CloseOutlet | terminal/cmd/api-emulator/api/controller_hardwarer.go:48-50 | a 4-unit hardware step that fails iff the hardware flag is set |
| Api.Controller.NewEval | terminal/cmd/api-emulator/api/controller_hardwarer.go:52-115 | hardware, then network, then no-room; at most one failure flag; err is never set; no backend call on a flag failure; backend errors become failNet; otherwise the first free cell among the listed occupancy, no backend NewEval when none is free, and the session records id and cell |
| Api.Controller.SpectralEval | terminal/cmd/api-emulator/api/controller_hardwarer.go:117-155 | hardware error as err; then netFail; then rejectedEval, each without a backend call; a backend rejection or error gives a zero result; on success the backend's verdict with the session spectrum |
| Api.Controller.HydroEval | terminal/cmd/api-emulator/api/controller_hardwarer.go:157-196 | the unstable-scale flag is reported after hardware but before network and rejection; on success the session's dry and wet weights |
| Api.Controller.FinalizeEval | terminal/cmd/api-emulator/api/controller_hardwarer.go:198-235 | no hardware step; network, then rejection, then the backend; on success the backend's verdict with the session's dry weight |
| Api.Controller.ReturnAfterSpectrumEval | terminal/cmd/api-emulator/api/controller_hardwarer.go:237-242 | a 6-unit hardware step that fails iff the hardware flag is set |
| Api.Controller.ReturnAfterHydroEval | terminal/cmd/api-emulator/api/controller_hardwarer.go:244-249 | a 6-unit hardware step that fails iff the hardware flag is set |
| Api.Controller.StoreAfterHydroEval | terminal/cmd/api-emulator/api/controller_hardwarer.go:251-260 | a 6-unit hardware step; on success it returns the session's cell, otherwise "" |
| Api.Controller.ExtractCellFromStorage | terminal/cmd/api-emulator/api/controller_hardwarer.go:262-267 | a 6-unit hardware step that fails iff the hardware flag is set |
| Api.Controller.StorageOccupyCell | terminal/cmd/api-emulator/api/controller_hardwarer.go:269-294 | network, then the forbidden flag, each without a backend call; a backend refusal is forbidden, a backend error is netFail, never both; against the mock, its verdict and table update, with the counter and the remembered classification kept |
| Api.Controller.StorageReleaseCell | terminal/cmd/api-emulator/api/controller_hardwarer.go:296-322 | as occupation, and the backend is always asked for a non-strict release; against the mock, its verdict and table update, with the counter and the remembered classification kept |
| Api.Controller.IntegrationUIMethod | terminal/cmd/api-emulator/api/controller_hardwarer.go:324-340 | with the network down: "network failure" and no backend call; otherwise the backend's reply is passed through unchanged; any error comes with status 0 and an empty response |
| Api.Controller.OptionalHardwareHealthcheck | terminal/cmd/api-emulator/api/controller_hardwarer.go:342-348 | the POS terminal and the printer are reported healthy |
| Api.Controller.OptionalHardwareRPC | terminal/cmd/api-emulator/api/controller_hardwarer.go:350-357 | a 3-unit hardware step; a failure becomes the sub-error with no result; otherwise the request is echoed |
| Api.Controller.InternetConnectivity | terminal/cmd/api-emulator/api/controller_hardwarer.go:365-367 | connected iff the network flag is 0 |
| Api.Controller.HasStorage | terminal/cmd/api-emulator/api/controller_hardwarer.go:369-375 | always true; one member stands for both `HasStorage` and `HasPositionalStorage`, which answer alike |
| Kiosk.ListedOccupancyAgrees | terminal/cmd/api-emulator/backend/mock_client.go:23-29 | a cell counts as occupied in the mock's listing iff the mock's table holds it |
| Kiosk.NewEvalCellIsFirstUnoccupied | terminal/cmd/api-emulator/api/controller_hardwarer.go:70-99 | against the mock, the new evaluation's cell is the first one of A1..J9 absent from the table, and none is given iff all 90 are in it |
| Kiosk.EmptyTableListsNothing | terminal/cmd/api-emulator/backend/mock_client.go:23-29 | an empty table is listed as no domains |
| Kiosk.TwoEvaluationsOnFreshMock | terminal/cmd/api-emulator/api/controller_hardwarer.go:52-115 | on a fresh mock, two evaluations get ids 1 and 2, both in cell A1, because NewEval does not occupy the cell |
| Kiosk.NetworkDownSkipsBackend | terminal/cmd/api-emulator/api/controller_hardwarer.go:53-64 | with the network flag on, NewEval reports failNet, gives no cell, and leaves the backend log and the mock's counter untouched |
| Kiosk.HealRestoresNewEval | terminal/cmd/api-emulator/api/controller_emul.go:64-72 | a hardware fault fails NewEval; after healing, NewEval succeeds with A1 |
| Kiosk.OccupyReleaseOnMock | terminal/cmd/api-emulator/api/controller_hardwarer.go:269-322 | occupying A1 is granted once and refused again; a release under another domain is granted; A1 is then offered again |
| Kiosk.FullEvaluationOnMock | terminal/cmd/api-emulator/api/controller_hardwarer.go:117-235 | against the mock, the final verdict repeats the spectral alloy and purity, with their grade and carat, confidence 0.98 and no risk |
| JsonRpc.Split | terminal/cmd/api-emulator/api/jsonrpc/jsonrpc.go:73 | at least one piece, none containing a dot |
| JsonRpc.JoinSplit | terminal/cmd/api-emulator/api/jsonrpc/jsonrpc.go:73 | splitting on dots loses nothing: joining the pieces with dots gives back the name |
| JsonRpc.SplitJoin | terminal/cmd/api-emulator/api/jsonrpc/jsonrpc.go:73 | dot-free pieces are recovered by splitting their join |
| JsonRpc.ConcatSplit | terminal/cmd/api-emulator/api/jsonrpc/jsonrpc.go:73-75 | concatenating the pieces is the name with its dots removed |
| JsonRpc.WithoutDotsLength | terminal/cmd/api-emulator/api/jsonrpc/jsonrpc.go:73-75 | removing the dots shortens the name by the number of dots |
| JsonRpc.TitleAt | terminal/cmd/api-emulator/api/jsonrpc/jsonrpc.go:74 | title-casing keeps the length and upper-cases exactly the first character and each character after a separator |
| JsonRpc.TitleIgnoringCase | terminal/cmd/api-emulator/api/jsonrpc/jsonrpc.go:74 | title-casing changes nothing but letter case |
| JsonRpc.TitleOfWord | terminal/cmd/api-emulator/api/jsonrpc/jsonrpc.go:74 | a lower-case word is title-cased by capitalising its first letter |
| JsonRpc.Title | terminal/cmd/api-emulator/api/jsonrpc/jsonrpc.go:74 | the title-cased text has the same length, and its first character is the upper case of the original first character |
| JsonRpc.ConcatTitledIgnoringCase | terminal/cmd/api-emulator/api/jsonrpc/jsonrpc.go:73-75 | the title-cased concatenation equals the plain one up to letter case |
| JsonRpc.ServiceMethodNameReadsBack | terminal/cmd/api-emulator/api/jsonrpc/jsonrpc.go:69-76 | the service method is the prefix, a dot, then the requested name without its dots, equal to it up to letter case |
| JsonRpc.ServiceMethodNameOfTwoPieces | terminal/cmd/api-emulator/api/jsonrpc/jsonrpc.go:69-76 | `a.b` becomes prefix.Title(a)Title(b) |
| JsonRpc.ServiceMethodName | terminal/cmd/api-emulator/api/jsonrpc/jsonrpc.go:69-76 | the service method is longer than the prefix and starts with the prefix and a dot |
| JsonRpc.ServiceMethodExamples | terminal/cmd/api-emulator/api/jsonrpc/jsonrpc.go:69-76 | `inlet.open` under RPC is `RPC.InletOpen`, and `eval.new` is `RPC.EvalNew` |
| JsonRpc.BuildServiceMethod | terminal/cmd/api-emulator/api/jsonrpc/jsonrpc.go:70-76 | the builder loop produces exactly the service method name |
| JsonRpc.ResponseFor | terminal/cmd/api-emulator/api/jsonrpc/jsonrpc.go:113-122 | the id is the recorded one or `null`; the result is present iff there is no error, the error iff there is one, never both |
| JsonRpc.ServerCodec.constructor | terminal/cmd/api-emulator/api/jsonrpc/jsonrpc.go:35-43 | a fresh codec has sequence 0, no pending ids and nothing written |
| JsonRpc.ServerCodec.ReadRequestHeader | terminal/cmd/api-emulator/api/jsonrpc/jsonrpc.go:63-89 | a decode error changes neither the sequence nor the pending table; otherwise the sequence goes up by one (mod 2^64), the client id is parked under it and cleared from the request, and the header carries the rewritten name; before wrap-around, a fresh number is never already pending |
| JsonRpc.ServerCodec.ReadRequestBody | terminal/cmd/api-emulator/api/jsonrpc/jsonrpc.go:91-99 | no target or no params: success without unmarshalling; otherwise the params go to the unmarshaller and its error is returned |
| JsonRpc.ServerCodec.WriteResponse | terminal/cmd/api-emulator/api/jsonrpc/jsonrpc.go:103-124 | an unknown sequence number gives "invalid sequence number in response" and changes nothing; otherwise its entry is removed and exactly one response, carrying the recorded id, is written |
| JsonRpc.RequestRoundTrip | terminal/cmd/api-emulator/api/jsonrpc/jsonrpc.go:63-124 | one request is numbered 1 and answered with the client's id or `null`; a second answer to it is refused |
| JsonRpc.CrossedResponses | terminal/cmd/api-emulator/api/jsonrpc/jsonrpc.go:103-124 | two requests answered out of order each get their own id back; an error answer has no result |
| Console.ParseUint32 | terminal/cmd/api-emulator/console/args.go:43 | succeeds iff the text is a non-empty run of decimal digits whose value is below 2^32, and then gives that value |
| Console.ParseInt32 | terminal/cmd/api-emulator/console/args.go:30 | any result lies in [−2^31, 2^31) |
| Console.ParseInt32OfIntToString | terminal/cmd/api-emulator/console/args.go:30-34 | every 32-bit value is read back from its decimal rendering |
| Console.ParseUint32OfNatToString | terminal/cmd/api-emulator/console/args.go:43-47 | every unsigned 32-bit value is read back from its rendering |
| Console.ParseInt32Accepts | terminal/cmd/api-emulator/console/args.go:30 | what is accepted is an optional sign then digits, and the result is their signed value |
| Console.ParseInt32AcceptsEveryInRange | terminal/cmd/api-emulator/console/args.go:30 | conversely, every optional sign followed by digits whose signed value is in the 32-bit range is accepted with that value, leading zeros and a signed zero included |
| Console.ParseInt32RefusesOutOfRange | terminal/cmd/api-emulator/console/args.go:30-33 | the rendering of a value outside the 32-bit range is refused |
| Console.ParseInt32Examples | terminal/cmd/api-emulator/console/args.go:30-33 | "abc", "" and "-" are refused; "+007" and "007" are 7, "-0" is 0 and "+5" is 5 |
| Console.Args.String | terminal/cmd/api-emulator/console/args.go:17-22 | (args[idx], true) when idx < Len, otherwise ("", false) |
| Console.Args.Len | terminal/cmd/api-emulator/console/args.go:12-14 | the number of words of the line |
| Console.Args.Int | terminal/cmd/api-emulator/console/args.go:25-35 | success iff the word exists and parses as a signed 32-bit number, with that value; otherwise (0, false) |
| Console.Args.Uint | terminal/cmd/api-emulator/console/args.go:38-48 | success iff the word exists and parses as an unsigned 32-bit number; otherwise (0, false) |
| Console.Args.Float64 | terminal/cmd/api-emulator/console/args.go:51-61 | success iff the word exists and the float parse accepts it; otherwise (0, false) |
| Console.Args.IntAsWritten | terminal/cmd/api-emulator/console/args.go:25-35 | as written: success iff the word exists, whether or not it parses; the parsed value when it parses, otherwise 0 |
| Console.Args.UintAsWritten | terminal/cmd/api-emulator/console/args.go:38-48 | as written: success iff the word exists, whether or not it parses; the parsed value when it parses, otherwise 0 |
| Console.Args.Float64AsWritten | terminal/cmd/api-emulator/console/args.go:51-61 | as written: success iff the word exists, whether or not the float parse accepts it; the parsed value when accepted, otherwise 0 |
| Console.IntReadsRendering | terminal/cmd/api-emulator/console/args.go:30-34 | `Int` on the rendering of any 32-bit n gives (n, true) |
| Console.UintReadsRendering | terminal/cmd/api-emulator/console/args.go:43-47 | `Uint` on the rendering of any unsigned 32-bit n gives (n, true) |
| Console.IntAsWrittenMisreportsFailure | terminal/cmd/api-emulator/console/args.go:25-35 | as written, `Int` equals the intended accessor except on an existing word that does not parse, where it gives (0, true) |
| Console.UintAsWrittenMisreportsFailure | terminal/cmd/api-emulator/console/args.go:38-48 | the same for `Uint` |
| Console.Float64AsWrittenMisreportsFailure | terminal/cmd/api-emulator/console/args.go:51-61 | the same for `Float64` |
| Console.IntAsWrittenCounterexample | terminal/cmd/api-emulator/console/args.go:26-33 | on `count abc`, as written `Int(1)` and `Uint(1)` give (0, true); the intended accessors give (0, false) |
| Activity.DelayMult | terminal/cmd/api-emulator/activity/main_activity.go:124-133 | `delay` asks for the parsed number, or 1 when it is missing or does not parse |
| Activity.DelayOfNonNumberAsWritten | terminal/cmd/api-emulator/activity/main_activity.go:124-133 | on `delay abc`, the accessor as written sets the multiplier to 0 instead of the fallback 1 |
| Activity.DelayMultAsWritten | terminal/cmd/api-emulator/activity/main_activity.go:124-133 | as written: 1 when there is no number word; the parsed number when it parses; 0 when it does not |
| Activity.Dispatch | terminal/cmd/api-emulator/activity/main_activity.go:63-143 | a command line is taken iff it asks the controller for something, and only `break`, `heal`, `delay` and `reset` ask |
| Activity.BreakWords | terminal/cmd/api-emulator/activity/main_activity.go:66-119 | in both directions, each `break` word pair selects exactly its toggle; a missing or unknown sub-word selects nothing |
| Activity.OtherWords | terminal/cmd/api-emulator/activity/main_activity.go:120-142 | `heal`, `reset` and `delay` are taken whatever follows; `delay` passes its multiplier; any other first word is not taken |
| Activity.Apply | terminal/cmd/api-emulator/activity/main_activity.go:14-24 | each controller request keeps the flags in {0, 1} and the multiplier in range |
| Activity.ToggleTwiceRestores | terminal/cmd/api-emulator/api/controller_emul.go:84-124 | giving the same toggle twice restores every knob |
| Activity.ToggleChangesOneFlag | terminal/cmd/api-emulator/api/controller_emul.go:84-124 | a toggle changes its own flag and no other knob |
| Activity.HealClearsFaults | terminal/cmd/api-emulator/api/controller_emul.go:64-72 | after heal every fault flag is 0 and the multiplier is kept; healing again changes nothing |
| Activity.MainCompleter | terminal/cmd/api-emulator/activity/main_activity.go:39-60 | four top-level commands, four under `break`, all described and none a separator |
| Activity.Main.constructor | terminal/cmd/api-emulator/activity/main_activity.go:9-12 | the activity drives the given controller |
| Activity.Main.Command | terminal/cmd/api-emulator/activity/main_activity.go:63-143 | reports whether the line is taken, as the dispatcher says; the controller's knobs become the dispatched request applied to the old ones, or stay unchanged |
| Completer.DPCItem | terminal/cmd/api-emulator/console/prefix_completer.go:46-56 | the name gets one trailing space; the node keeps its help text and children, and is neither hidden nor a separator |
| Completer.DPCItemNoHelp | terminal/cmd/api-emulator/console/prefix_completer.go:59-69 | the name gets one trailing space; the node is hidden from help |
| Completer.DPCSeparator | terminal/cmd/api-emulator/console/prefix_completer.go:72-81 | name " ", no children, a separator |
| Completer.NamedIffTrimmed | terminal/cmd/api-emulator/console/prefix_completer.go:30 | a node prints its own line iff its trimmed name is not empty |
| Completer.BranchWidth | terminal/cmd/api-emulator/console/prefix_completer.go:32-36 | the branch drawn at level L is 4L characters wide |
| Completer.RenderAllAppend | terminal/cmd/api-emulator/console/prefix_completer.go:40-42 | siblings print one after another: rendering a concatenation is concatenating renderings |
| Completer.RenderLineCount | terminal/cmd/api-emulator/console/prefix_completer.go:21-43 | with single-line texts, the help has exactly one line per visible node: none for hidden subtrees, one for a separator, one per named node |
| Completer.RenderAllLineCount | terminal/cmd/api-emulator/console/prefix_completer.go:40-42 | the same for a list of nodes |
| Completer.DPCItemRender | terminal/cmd/api-emulator/console/prefix_completer.go:30-42 | a described item prints prefix, branch, word, three spaces, help text and a newline, then its children one level deeper |
| Completer.BlankDPCItemRender | terminal/cmd/api-emulator/console/prefix_completer.go:30-42 | an item with a blank word prints no line and passes its own level to its children |
| Completer.HiddenAndSeparatorRender | terminal/cmd/api-emulator/console/prefix_completer.go:22-29 | a hidden item prints nothing, children included; a separator prints only prefix + "~~~~~\n" |
| Completer.Render | terminal/cmd/api-emulator/console/prefix_completer.go:21-43 | what a node prints is empty or ends with a newline |
| Completer.RenderAll | terminal/cmd/api-emulator/console/prefix_completer.go:40-42 | what a list of nodes prints is empty or ends with a newline |
| Completer.RenderStartsWithPrefix | terminal/cmd/api-emulator/console/prefix_completer.go:21-43 | whatever a node prints starts with the prefix and is longer than it |
| Completer.RenderAllStartsWithPrefix | terminal/cmd/api-emulator/console/prefix_completer.go:40-42 | whatever a list of nodes prints starts with the prefix and is longer than it |
| Completer.PrintLine | terminal/cmd/api-emulator/console/prefix_completer.go:31-37 | appends exactly the header line: prefix, branch, name, two spaces, help, newline |
| Completer.Print | terminal/cmd/api-emulator/console/prefix_completer.go:21-43 | appends exactly the rendering of the node's subtree |
| Completer.PrintNamed | terminal/cmd/api-emulator/console/prefix_completer.go:30-42 | appends the line of a named node and then its children one level deeper |
| Completer.PrintChildren | terminal/cmd/api-emulator/console/prefix_completer.go:40-42 | appends the children's renderings in order |
| Helpers.StrLessTransitive | terminal/cmd/api-emulator/helpers/logrus_helper.go:55 | Go's string order is transitive |
| Helpers.StrLessTotal | terminal/cmd/api-emulator/helpers/logrus_helper.go:55 | any two different strings are ordered one way or the other |
| Helpers.Insert | terminal/cmd/api-emulator/helpers/logrus_helper.go:55 | inserting into a sorted key list keeps it strictly sorted, with exactly one more element |
| Helpers.SortedUnique | terminal/cmd/api-emulator/helpers/logrus_helper.go:51-55 | two strictly sorted lists with the same keys are equal, so the map's iteration order does not matter |
| Helpers.SortedKeys | terminal/cmd/api-emulator/helpers/logrus_helper.go:51-55 | the keys of the fields, each once, in ascending order |
| Helpers.SortStrings | terminal/cmd/api-emulator/helpers/logrus_helper.go:55 | the result is strictly sorted and holds exactly the given keys |
| Helpers.FieldText | terminal/cmd/api-emulator/helpers/logrus_helper.go:58-68 | an empty key prints nothing; otherwise the field is bracketed and ends in "] " |
| Helpers.WriteField | terminal/cmd/api-emulator/helpers/logrus_helper.go:61-68 | appends `[k=v] `, or `[k] ` for an empty value |
| Helpers.WriteFields | terminal/cmd/api-emulator/helpers/logrus_helper.go:57-69 | writes the fields of the keys in the given order |
| Helpers.DataTextEmptyIff | terminal/cmd/api-emulator/helpers/logrus_helper.go:47-49 | the data text is empty iff fields are switched off or there are none |
| Helpers.DataText | terminal/cmd/api-emulator/helpers/logrus_helper.go:46-72 | a non-empty data text starts with three spaces |
| Helpers.DataTextIgnoresEmptyKey | terminal/cmd/api-emulator/helpers/logrus_helper.go:58-60 | when the entry has other fields too, a field with the empty key changes nothing in the output; an entry whose only field has the empty key is not covered, and its data text is still three spaces and the colour codes around nothing |
| Helpers.FieldsIgnoreEmptyKey | terminal/cmd/api-emulator/helpers/logrus_helper.go:58-60 | the written fields with and without the empty key are the same |
| Helpers.Data | terminal/cmd/api-emulator/helpers/logrus_helper.go:46-72 | nothing when fields are off or absent; otherwise three spaces and the colored, trimmed fields in ascending key order, whatever order the keys were collected in |
| Helpers.LogrusConsoleHook.Levels | terminal/cmd/api-emulator/helpers/logrus_helper.go:25-27 | every level from panic to trace, once each, in order |
| Helpers.Route | terminal/cmd/api-emulator/helpers/logrus_helper.go:31-42 | in both directions: panic, fatal and error go to the error output; warn to warnings; debug and trace to debug; info and unknown levels to plain output |
| Helpers.RouteBySeverity | terminal/cmd/api-emulator/helpers/logrus_helper.go:31-42 | a more severe level never goes to a less severe output |
| Helpers.PadRight | terminal/cmd/api-emulator/helpers/logrus_helper.go:30 | `%-45s`: the message is kept whole and padded with spaces to at least 45 characters |
| Helpers.Fire | terminal/cmd/api-emulator/helpers/logrus_helper.go:29-44 | the line is the padded message followed by the data text; it goes to the output of the entry's level; no error is returned |

## Left out

- Traits are not used, so the `Backender` interface is a class. It holds either a mock or nothing; nothing stands for the remote gRPC client. That client's successful replies are left open. An error reply comes with zero results: no domains, id 0, no rejection and a zero result, no refusal and an empty reason, or an empty body with status 0.
- The remote client is not modelled: gRPC, TLS and the 30/60-second context timeouts. A timeout is one of the open error replies.
- Real time is not modelled. The blocking sleep of a hardware step is recorded only as its computed duration, in the ghost log `sleeps`.
- Randomness is not modelled:
  - The random draws of the evaluation generator are parameters of `Emulation.RandomEvaluation`.
  - Api.Controller.GenerateEvaluationData: the session generator that `NewEval` calls leaves the spectrum and weights open. Its body is not in the source, and its four arguments (alloy flag, fineness flag) are passed but not modelled.
  - `UploadFrontalCameraPhoto` is not modelled; its file id is a random UUID.
- Concurrency is not modelled. Atomics, the session mutex and the codec mutex become plain sequential fields.
- Two declarations disagree. `controller.go` and `controller_emul.go` both declare `Controller` and `hwBusinessMultDivider`. One controller is modelled: the fields of `controller.go` and the helpers of `controller_emul.go`.
- The reset gate is not modelled. `ResetAPI` and its pending-request counter are not in the source. `Activity.Main.Command` returns true for `reset` and changes no modelled state, where the source would call `ResetAPI` and only log its outcome.
- Floating point is not modelled. Purity, weights and the multiplier are exact reals: no IEEE rounding in `math.Floor`/`Ceil`, no NaN, and no rounding in `uint64(1000*m)`.
- Console.Args.Float64: `strconv.ParseFloat` is a parameter, so only its accept/refuse outcome is modelled.
- Activity.Main.Command: reads the `delay` number through the corrected `Float64` accessor. So `delay abc` sets the fallback multiplier 1 (1000 thousandths), where the source as written sets 0 (see Findings).
- Go's `strings.Title` is modelled for ASCII only. Word boundaries are non-alphanumeric ASCII characters other than `_`. Other Unicode letters, separators and title case are not modelled.
- JSON and WebSocket are not modelled. Decoding gives a request or an error, with raw JSON kept as text. Encoding errors, a nil reply omitted by `omitempty`, and WebSocket framing are not modelled.
- JsonRpc.ServerCodec.ReadRequestHeader: a failed decode leaves the request fully reset. The partial fill that `encoding/json` can leave behind is not modelled.
- Log values are taken as already printed by `fmt.Sprint`. The color function is a parameter.
- Helpers.Fire: the line is passed to the console as a format string. Expanding `%` verbs inside it is not modelled, and neither is writing to the console.
- The console's own messages and logger calls are not modelled (`Infof`, `Warningf` in `Command`, and the errors logged by `Broken` and the storage methods). Refusal reasons reach only the log.
- The readline REPL, the activity stack and the activity's no-op lifecycle callbacks (`Create`, `Destroy`, `Activate`, `Deactivate`) are not modelled. The help tree's children are always described nodes; plain readline children are not modelled.
- `Args` indices are natural numbers. A negative index, which the source would let through to a panic, is not modelled.
- `sort.Strings` sorts a slice in place; it is modelled on a sequence, by insertion.
- `UploadFrontalCameraPhotoForEval` does nothing and is not modelled.

## Findings

| source | as written | input that shows it | evidently intended | confidence | as-written member | corrected member |
|---|---|---|---|---|---|---|
| terminal/cmd/api-emulator/console/args.go:25-35 | `s, ok := a.String(idx)` assigns the named result `ok`, so when `strconv.ParseInt` fails the bare `return` reports `(0, true)` | `Int(1)` on the line `count abc` | a word that does not parse gives `(0, false)` | not executed | Console.IntAsWrittenCounterexample | Console.Args.Int |
| terminal/cmd/api-emulator/console/args.go:38-48 | the same reuse of `ok` in `Uint` | `Uint(1)` on the line `count abc` | `(0, false)` | not executed | Console.UintAsWrittenMisreportsFailure | Console.Args.Uint |
| terminal/cmd/api-emulator/console/args.go:51-61 | the same reuse of `ok` in `Float64` | `Float64(1)` on the line `delay abc` | `(0, false)` | not executed | Console.Float64AsWrittenMisreportsFailure | Console.Args.Float64 |
| terminal/cmd/api-emulator/activity/main_activity.go:124-133 | through `Float64` as written, `delay abc` sets the delay multiplier to 0 | the console line `delay abc` | the fallback multiplier 1 | not executed | Activity.DelayOfNonNumberAsWritten | Activity.DelayMult |
