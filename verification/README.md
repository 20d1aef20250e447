# Falcon instrument hub: a verified model of its measurement core

The hub turns a Cartesian measurement request into scripts for the instrument script server
and the returned shared-memory buffers into labelled arrays. This project models that path in
Dafny and proves what it is relied on for. `dafny verify dfyconfig.toml` checks all of it.

| module | what it models |
|---|---|
| `Ports` | wiring a port library to device gates, and finding connected ports back |
| `Planner` | rewriting an n-axis sweep into a tree of primitive measurements |
| `SetterMeaning` | which instruction each target ends up with |
| `RowMajor`, `PlanStructure` | the order and the shape of that tree: which leaves, how many, what each holds and sweeps |
| `GetterMeaning` | which endpoint, unit and label every getter ends up with |
| `PlanExecution` | running a plan, merging outputs, stopping at the first error |
| `PrimitiveCode` | step counts, the canonical setter order and the three script encoders |
| `PlanMeaning` | what a plan means: a row-major walk over the whole sweep, whatever scripts exist |
| `Averaging`, `Shapes` | block averaging; the checked and the unchecked product of a shape |
| `Buffers`, `BufferProtocol` | the buffer manager as a class, and as a machine of interleaved steps |
| `Measurements` | several measurements at once on that machine, each keeping to its program |
| `DispatchProtocol`, `Registry` | concurrent dispatch, and one measurement with its clean-up |
| `PlanRuns` | a whole plan on the registry: one visit to the script server per leaf |
| `Decoder`, `PrimitiveDecoding` | collecting each getter's samples from the script's returns |
| `ScriptArguments`, `ScriptVariables` | what a script's arguments say, and how they travel to it |
| `FaithfulServer` | script servers that do what the arguments say |
| `EndToEnd`, `Handler` | sample conservation from the leaves to the final arrays; the whole request |
| `WireCodec` | script values on the wire, the type manifest, and the tag the wire loses |
| `Wrappers`, `Division` | results, machine integers, and division facts |

Loops over Go maps take the keys in any order, so every result about such a loop holds for
every iteration order. Code that updates state in place is a class or a method with a loop,
proved against a specification function; the theorems are about those functions.

## Main results

- **Plans mean the same.** For any two lists of available dimensionalities that both admit a
  plan, the merged output is the same, and it is the row-major walk over the whole sweep
  (`PlanMeaning`, `ScriptsDoNotMatter`). The hypotheses: at most 255 axes; each axis keeps a
  target (it has a port, and no target sits on two axes); no axis is empty; scripts emit
  positions in row-major order; and a swept port steps through its axis's own points. The last
  one is needed, because a fixed axis uses the points and a swept one the port's bounds
  (`DisagreementShows`).
- **Samples are conserved.** Whatever plan is built, merging and averaging leave exactly one
  number per position for every getter, so neither averaging nor the final length check can
  fail for a plannable request (`RecordedSamplesConserved`, `PosedCannotFail`).
- **The whole stack is on record.** `Handler.Measure` runs a request from the script table to the
  response; its trace says which script was called for which leaf, with which arguments, what
  it returned and how the arrays follow from that. With row-major scripts the arrays are the
  averages along the row-major walk (`MeasuresTheReference`, `ArraysOfReference`).
- **A faithful server is all it takes.** Arguments have a meaning of their own, a loop over named
  setters along named domains, and what the encoders write means what the plan asks for
  (`ArgumentsMean`). So when each script does what its arguments say, a request that can be
  encoded cannot fail before the recorder, and returns the averages along the whole sweep, in the
  units and under the labels of the request's ports (`FaithfulExecution`, `FaithfulResponse`).
  There is such a server for every device (`RequestCanBeServed`).
- **References are conserved** over every interleaving of the buffer manager's steps: no
  double release, no consuming of a released buffer, and a leak if and only if a buffer is
  registered while it is tracked (`AlwaysConserved`, `NoDoubleRelease`, `LeakFreeIffNoOverwrite`).
- **Measurements clean up** on every way out, alone (`RunMeasurement`), over a whole plan
  (`TidyServerLeavesNoTrace`) and in every interleaving of measurements (`EachCleansUp`). Among
  the others each one sees its own buffers as if it ran alone, if and only if none of them is
  stolen by registering it again (`EachRunsAsAlone`).
- **Dispatch is a sequential map** with distinct ids, and a slot is an error exactly when its script
  or a registration failed (`DispatchIsSequential`, `SlotsAreExact`, `IdsAreDistinct`).
- **Decoding is exact**: when it succeeds, what it returns, sample by sample and in which unit,
  which buffers it consumes, and that other targets' calls and other measurements' buffers do not
  matter (`DecodingExact`, `SeriesHold`, `PlanReads`).
- **The wire codec round-trips** in both directions, exactly on accepted values and canonical
  wire values, and a job request determines its variables up to tags inside maps.

## What the code does not do

Where a property one might expect is false of the code, the code is modelled as it is and the
exact condition is proved.

- A request of three or more axes with the two-dimensional script on offer is planned, but
  always ends in an encoding error: that encoder has no field for a held setter. Every leaf of
  a proper request encodes exactly when the largest dimensionality in reach is below two, or
  there are just two axes (`PlanEncodes`, `LeavesDispatchable`, `BeyondIsRefused`).
- Planning also succeeds with no supported dimensionality in reach when a fixed axis has no
  points (`PlanningSucceeds`).
- The primitive axis counter is a uint8: the dimensionality is right exactly up to 255 axes, and
  a request of 256 is planned as a point measurement (`DimensionIsExact`, `AxisCounterWraps`).
- A connected port does not always resolve to itself: exactly when an entry is taken for an
  earlier one on its endpoint, because its gate is missing or the same (`RoundTripExactly`).
- Arrays that cannot be labelled are dropped without an error: the errors of `BuildInsertEntry`
  and `BuildDatabaseEntry` (runtime/internal/cartesianmeasure/cartesian_handler.go:265-278) are
  never looked at, and the request succeeds with no arrays if the recorder accepts the entry.
  `Handler.Measure` does the same, and for a plannable request it cannot come to that.
- Registering a tracked buffer again loses its library reference for good (`LeaksStay`).
- The encoder accepts whole numbers and float32 that the manifest then panics on, and refuses
  a single data buffer that the manifest knows (`RequestBuilt`, `EncodesAccepted`).
- A uint beyond int64 is sent as a negative number, while a uint64 is refused (`NumberSurvives`).
- The comment on `VariableValue` (runtime/internal/instrumentserver/client.go:403-433) lists a
  mixed array; the code has no such type, and decoding one panics.

## Model

| member | source | states |
|---|---|---|
| Ports.ConnectWireMap | runtime/internal/config/connections.go:652-702 | under each name the list holds the wired forms in wiremap order, or else the bare form, whatever order either map is walked in; so each port is listed exactly as often as wiremap and library determine |
| Ports.RoundTripExactly | runtime/internal/settingrouter/portExists.go:22-49 | connecting and then resolving gives back every port of the list if and only if no entry on an endpoint is mistaken for an earlier, different one: with a missing or equal gate, unless its own wiring was listed before |
| Ports.ConnectThenResolve | runtime/internal/settingrouter/portExists.go:22-49 | in particular it is the identity when every gate is resolved and not empty |
| Ports.MissingGateResolvesElsewhere | runtime/internal/settingrouter/portExists.go:22-49 | a concrete wiremap for which it fails: a wired port with an empty gate resolves to its neighbour on the endpoint |
| Ports.EveryPortListed | runtime/internal/config/connections.go:660-695 | every library port is listed and nothing else; with distinct endpoints no name is listed twice |
| Ports.ListedFields | runtime/internal/config/connections.go:664-695 | every listed port is the library's, with device and gate of a wiremap entry on its endpoint, or with neither if no entry is there |
| Ports.ResolvesFirstAnswer | runtime/internal/settingrouter/portExists.go:22-49 | resolution finds the first answering port, and fails only when none answers |
| Ports.ResolvedAgrees | runtime/internal/settingrouter/portExists.go:8-49 | what a request resolves to agrees with it in name, instrument, kind, role, access, scope, characteristic and unit, and in the gate if one is named; and a request that agrees with a listed port in all of them is resolved |
| Ports.ResolveWiremap | runtime/internal/config/wiremap.go:94-124 | gates are written in place, each device name standing for the last listed gate of that name; it succeeds exactly when every device name is listed, and then the entries satisfy the round-trip hypothesis unless a gate has no name |
| Planner.BuildSetters | runtime/internal/cartesianmeasure/planner.go:230-316 | the nested loops compute the axis-by-axis override, with a uint8 count of swept axes as primitive axis number |
| Planner.CountSweptAxes | runtime/internal/cartesianmeasure/planner.go:339-355 | the dimensionality is the number of distinct swept primitive axes modulo 256, in any map order |
| Planner.BuildPrimitiveInput | runtime/internal/cartesianmeasure/planner.go:318-367 | getters, setters, units and dimensionality of one primitive measurement, or the first error |
| Planner.BuildPlanFrom | runtime/internal/cartesianmeasure/planner.go:425-521 | the recursion builds exactly the specified tree; it terminates because each call fixes one more axis |
| Planner.BuildPlan | runtime/internal/cartesianmeasure/planner.go:390-443 | the entry point plans the first waveform, and reports a request without one |
| Planner.FirstSweptIsFirst | runtime/internal/cartesianmeasure/planner.go:456-471 | the axis that is fixed next is the lowest one not fixed yet |
| Planner.FixingShrinks | runtime/internal/cartesianmeasure/planner.go:477-507 | fixing an axis strictly shrinks the set of axes still swept |
| GetterMeaning.GettersInOrder | runtime/internal/cartesianmeasure/planner.go:173-207 | targets come in getter order, and a target is filed under the last port that names it |
| GetterMeaning.TargetIsEndpoint | runtime/internal/cartesianmeasure/planner.go:151-171 | a target is the instrument, group and channel of a listed port that the request describes |
| GetterMeaning.PlanReadsPorts | runtime/internal/cartesianmeasure/planner.go:318-367 | in every leaf of every plan the getters are the endpoints of the request's ports in their order, exactly these have a unit, and it is the unit of the last port that names the target |
| SetterMeaning.PortDrivesTarget | runtime/internal/cartesianmeasure/planner.go:230-316 | a target is driven by the last port that names it: held at its axis's value, or swept with that port's own domain, direction and axis |
| SetterMeaning.OnlyNamedTargets | runtime/internal/cartesianmeasure/planner.go:230-316 | no target is driven that no port names |
| SetterMeaning.SweepDirection | runtime/internal/cartesianmeasure/planner.go:209-228 | an increasing port is swept from the lesser to the greater bound, a decreasing one the other way |
| SetterMeaning.DimensionIsExact | runtime/internal/cartesianmeasure/planner.go:339-355 | for a sweep whose axes keep their targets, the dimensionality is the number of axes if and only if there are at most 255; any more count as none |
| SetterMeaning.AxisCounterWraps | runtime/internal/cartesianmeasure/planner.go:339-355 | a concrete request of 256 axes is planned as one point measurement that sweeps all of them |
| RowMajor.WalkIsRowMajor | runtime/internal/cartesianmeasure/planner.go:477-507 | the nesting order is row-major: each position stands at its Horner rank, and there are as many as the product of the lengths |
| RowMajor.WalkInStages | runtime/internal/cartesianmeasure/planner.go:88-111 | walking a prefix of the axes and then the rest below each entry is walking all axes |
| PlanStructure.SettersAfterFixing | runtime/internal/cartesianmeasure/planner.go:230-316 | fixing a prefix turns its sweeps into held values and renumbers the others from zero, leaving everything else |
| PlanStructure.LeafAxesDense | runtime/internal/cartesianmeasure/planner.go:230-316 | the primitive axes of a leaf are exactly 0 to d - 1 |
| PlanStructure.BuildPlanStep | runtime/internal/cartesianmeasure/planner.go:425-521 | below any fixed prefix the planner stops at a supported number of axes, and otherwise fixes the next axis |
| PlanStructure.PlanIsRendered | runtime/internal/cartesianmeasure/planner.go:425-521 | planning is growing a tree over shapes alone and filling in the leaves |
| PlanStructure.PlanningSucceeds | runtime/internal/cartesianmeasure/planner.go:449-521 | planning succeeds if and only if some supported dimensionality is at most the number of axes, or an axis is empty |
| PlanStructure.PlanLeaves | runtime/internal/cartesianmeasure/planner.go:88-111 | the leaves of a plan are the primitive measurements at the row-major walk over the axes that were fixed |
| PlanStructure.Decomposition | runtime/internal/cartesianmeasure/planner.go:341-507 | every leaf has the largest supported dimensionality that fits, holds exactly a prefix of the axes, and the leaves number the product of the held lengths |
| PlanStructure.DisjointTargetsArePlannable | runtime/internal/cartesianmeasure/planner.go:230-316 | the planning hypothesis follows when each axis has a port and no target sits on two axes |
| PlanExecution.MergeOutputs | runtime/internal/cartesianmeasure/planner.go:61-82 | merging appends samples getter by getter, in any map order |
| PlanExecution.MergeAssociative | runtime/internal/cartesianmeasure/planner.go:61-82 | merging is associative, so nesting levels do not matter |
| PlanExecution.ExecutePlan | runtime/internal/cartesianmeasure/planner.go:88-111 | the recursive run, with its log of calls, computes the specified run |
| PlanExecution.ExecutionIsFlat | runtime/internal/cartesianmeasure/planner.go:88-111 | running a plan is running the list of its leaves, however deep the nesting |
| PlanExecution.ExecutionMergesAnswers | runtime/internal/cartesianmeasure/planner.go:88-111 | what a plan returns is the merged answers to its leaves, one per leaf and in their order |
| PlanExecution.PlanBounded | runtime/internal/cartesianmeasure/planner.go:318-367 | whatever the planner builds fits the uint8 fields |
| PlanExecution.ExecutionFailsFast | runtime/internal/cartesianmeasure/planner.go:33-111 | success calls the executor once per leaf in order; if leaf j is the first to fail it is called exactly j + 1 times and no partial output escapes |
| PrimitiveCode.AxisCounts | runtime/internal/cartesianmeasure/primitive_code.go:82-119 | counting succeeds exactly when a vector of step counts exists that fits the setters, in any map order |
| PrimitiveCode.CountsUnique | runtime/internal/cartesianmeasure/primitive_code.go:82-119 | no input has two vectors of step counts |
| PrimitiveCode.CoupledSettersAgree | runtime/internal/cartesianmeasure/primitive_code.go:81-119 | setters that sweep one axis have the same count |
| PrimitiveCode.NativeShape | runtime/internal/cartesianmeasure/planner.go:43-58 | the shape a native plan reports, in any map order: as many lengths as swept axes, each the count of a setter of that axis, or zero without one |
| PrimitiveCode.ShapesAgree | runtime/internal/cartesianmeasure/planner.go:43-58 | the two independent shape computations agree |
| PrimitiveCode.SortedTargets | runtime/internal/cartesianmeasure/primitive_code.go:50-79 | the setter list holds exactly the map's keys, by instrument, then by group, then by channel, each ascending; strings by their first difference |
| PrimitiveCode.SortedListingUnique | runtime/internal/cartesianmeasure/primitive_code.go:50-79 | there is only one such list, so the map order cannot show |
| PrimitiveCode.GetterArray | runtime/internal/cartesianmeasure/primitive_code.go:24-48 | succeeds exactly for a non-empty list of distinct serialisable getters, and keeps its order |
| PrimitiveCode.ValidateEncoder | runtime/internal/cartesianmeasure/primitive_code.go:121-142 | the exact condition under which all encoders start, with getters, sorted setters and counts |
| PrimitiveCode.EncodeGetSet | runtime/internal/cartesianmeasure/primitive_code.go:146-172 | voltage i belongs to setter i; the exact condition of success |
| PrimitiveCode.Encode1DBuffered | runtime/internal/cartesianmeasure/primitive_code.go:189-218 | domain i belongs to setter i, held setters as domains that do not move; the exact condition of success |
| PrimitiveCode.Encode2DBuffered | runtime/internal/cartesianmeasure/primitive_code.go:220-264 | the exact condition of success, which leaves no setter held; X and Y lists in canonical order, each with its own domains |
| PrimitiveCode.EncodeWith | runtime/internal/cartesianmeasure/primitiveMeasurementRegistry.go:68-86 | each script has its own encoder, with the exact condition under which it accepts an input |
| ScriptArguments.ArgumentsMean | runtime/internal/cartesianmeasure/primitive_code.go:146-264 | what an encoder writes means what its input asks for: read back and followed literally, with the X setters moving outside and the Y setters inside, the arguments name the input's getters in order and go through exactly the input's voltages in row-major order |
| ScriptArguments.ArgumentsDetermineTrace | runtime/internal/cartesianmeasure/primitive_code.go:146-264 | so for an injective codec, inputs that are sent as the same arguments have the same getters and voltages |
| ScriptVariables.ArgumentsTravel | runtime/internal/cartesianmeasure/primitive_code.go:165-263 | the arguments can always be sent, and the script finds each of them under its own name and in the wire form of its kind |
| PrimitiveCode.TwoAxesPartition | runtime/internal/cartesianmeasure/primitive_code.go:220-264 | the X and Y lists partition the setters: together they are all of them, and their lengths add up |
| PlanMeaning.LeafCounts | runtime/internal/cartesianmeasure/primitive_code.go:82-119 | a leaf has step counts exactly when none of its swept axes is empty, and they are the lengths of those axes in order |
| PlanMeaning.LeafShape | runtime/internal/cartesianmeasure/planner.go:43-58 | a leaf reports the lengths of its swept axes |
| PlanMeaning.RootShape | runtime/internal/cartesianmeasure/planner.go:84-86 | the root plan reports the lengths of all axes, whatever dimensionalities were on offer |
| PlanMeaning.LeafTraceIs | runtime/internal/cartesianmeasure/primitive_code.go:266-268 | a row-major script takes a leaf through exactly the reference voltages of the positions below it |
| PlanMeaning.PlanMeaning | runtime/internal/cartesianmeasure/planner.go:425-521 | meaning preservation: the plan's merged output is, getter by getter, the responses along the row-major walk over the whole sweep |
| PlanMeaning.ScriptsDoNotMatter | runtime/internal/cartesianmeasure/planner.go:425-521 | two plans for the same sweep from different available scripts return the same samples in the same order |
| PlanMeaning.DisagreementShows | runtime/internal/cartesianmeasure/planner.go:244-309 | the agreement of swept ports with their axis points is necessary: without it two plans differ for some device |
| PlanMeaning.WholeSweepOnly | runtime/internal/cartesianmeasure/planner.go:230-316 | a leaf holds no setter exactly when it is the whole sweep |
| PlanMeaning.LeafEncodes | runtime/internal/cartesianmeasure/primitive_code.go:121-264 | what one planned leaf needs to pass its encoder |
| PlanMeaning.PlanEncodes | runtime/internal/cartesianmeasure/primitive_code.go:121-264 | for a request with non-empty axes and proper getters, and d at most 2 the largest dimensionality in reach: every leaf of the plan encodes if d is below 2 or there are exactly two axes, and otherwise none does |
| Averaging.AverageData | runtime/internal/cartesianmeasure/cartesian_handler.go:100-139 | succeeds exactly for a positive count that divides the number of samples; one average per block |
| Averaging.AverageAt | runtime/internal/cartesianmeasure/cartesian_handler.go:123-137 | average k times the count is the sum of block k |
| Averaging.AveragingKeepsTheTotal | runtime/internal/cartesianmeasure/cartesian_handler.go:123-137 | count times the sum of the averages is the sum of the samples |
| Averaging.AveragesLength | runtime/internal/cartesianmeasure/cartesian_handler.go:117-137 | count times the number of averages is the number of samples |
| Averaging.AveragesAppend | runtime/internal/cartesianmeasure/cartesian_handler.go:100-139 | averaging distributes over appending whole blocks |
| Averaging.AverageOutput | runtime/internal/cartesianmeasure/cartesian_handler.go:237-261 | averaging a merged output in place, in any map order; getters without a count stay raw; the exact condition of success |
| Averaging.AveragingCommutes | runtime/internal/cartesianmeasure/cartesian_handler.go:237-261 | averaging after merging is averaging inside every leaf, at every level of nesting |
| Shapes.ShapeSize | runtime/internal/cartesianmeasure/measurement_decoder.go:303-326 | succeeds exactly when the shape is non-empty and positive and the true product fits an int; then returns it, and every intermediate product fits a 64-bit int |
| Shapes.WrappedProductIs | runtime/internal/cartesianmeasure/databaseBuilding.go:217-220 | the unchecked product wraps once: it is the true product reduced to 64 bits |
| Shapes.BuildRanges | runtime/internal/cartesianmeasure/databaseBuilding.go:184-249 | one array per getter, with gate, unit and instrument type of its port; it fails exactly when a getter has no port or not as many samples as the machine product of the shape |
| Buffers.DataBufferManager.RegisterBuffer | runtime/internal/databuffer/buffer_management.go:102-134 | tracks the buffer under its new owner if and only if the library has it and its metadata and the script server lets go of its copy; otherwise it reports the first of these failures and changes nothing; library references stay accounted for on every path |
| Buffers.AcquiredExactly | runtime/internal/databuffer/buffer_management.go:102-123 | the three answers of library and server decide, in their order |
| Buffers.DataBufferManager.ConsumeSamples | runtime/internal/databuffer/buffer_management.go:331-369 | the owner gets the samples that the buffer holds, and the buffer is released and forgotten even if it is empty or of an unknown type; anybody else gets an error and changes nothing |
| Buffers.CopyWholes | runtime/internal/databuffer/buffer_management.go:371-382 | copies integer samples in order, or reports that there are none |
| Buffers.SamplesAreHeld | runtime/internal/databuffer/buffer_management.go:343-382 | the samples of a buffer are what it holds, integers as the same numbers; an empty or untyped buffer has none |
| Buffers.DataBufferManager.ReleaseBuffer | runtime/internal/databuffer/buffer_management.go:384-406 | releases and forgets the buffer, or reports that it is not tracked |
| Buffers.DataBufferManager.ReleaseRequestor | runtime/internal/databuffer/buffer_management.go:408-428 | forgets exactly the requestor's entries while walking the map in any order, each released once |
| Buffers.DataBufferManager.TotalBytes | runtime/internal/databuffer/buffer_management.go:172-188 | the sum of all sizes modulo 2^64, in any map order |
| Buffers.BytesWithout | runtime/internal/databuffer/buffer_management.go:172-188 | the sum does not depend on the order of the entries |
| BufferProtocol.AlwaysConserved | runtime/internal/databuffer/buffer_management.go:102-428 | over every interleaving: references held are one per tracked buffer that is not just being released, one per registration in flight, one per overwritten entry |
| BufferProtocol.NoDoubleRelease | runtime/internal/databuffer/buffer_management.go:327-428 | no step of any run gives back a reference that is not held |
| BufferProtocol.ReadsAreBacked | runtime/internal/databuffer/buffer_management.go:331-369 | a buffer that is being consumed under the lock is backed by a reference |
| BufferProtocol.QuiescentReferences | runtime/internal/databuffer/buffer_management.go:102-428 | when no call is in progress, references are the tracked buffers plus the overwritten entries |
| BufferProtocol.LeaksStay | runtime/internal/databuffer/buffer_management.go:125-131 | a reference lost by re-registration is held at every later moment |
| BufferProtocol.LeakFreeIffNoOverwrite | runtime/internal/databuffer/buffer_management.go:102-134 | a run is free of leaks if and only if it never registers a buffer that is tracked already |
| BufferProtocol.SweepIsComplete | runtime/internal/databuffer/buffer_management.go:408-428 | a sweep that ends leaves no entry of its requestor |
| BufferProtocol.SweepTakesOwn | runtime/internal/databuffer/buffer_management.go:408-428 | a sweep deletes nobody else's entries |
| BufferProtocol.CleanedUpForGood | runtime/internal/databuffer/buffer_management.go:408-428 | after a sweep with no registration of its requestor in flight or started since, nothing is tracked for it at any later moment of any interleaving |
| BufferProtocol.RegistrationAlone | runtime/internal/databuffer/buffer_management.go:102-134 | an undisturbed registration that succeeds does what the sequential method does |
| BufferProtocol.MetadataFailureAlone | runtime/internal/databuffer/buffer_management.go:111-115 | an undisturbed registration whose metadata cannot be read goes back to where it began |
| BufferProtocol.HandOverFailureAlone | runtime/internal/databuffer/buffer_management.go:117-120 | and so does one whose buffer the script server does not let go of |
| BufferProtocol.ConsumptionAlone | runtime/internal/databuffer/buffer_management.go:331-406 | so does an undisturbed consumption |
| BufferProtocol.SweepAlone | runtime/internal/databuffer/buffer_management.go:408-428 | and an undisturbed sweep, for every order of the entries: others stay, and one reference is given back for each of its own |
| Measurements.SweptIsSettled | runtime/internal/cartesianmeasure/primitiveMeasurementRegistry.go:157-211 | a measurement that has begun to sweep has no registration in flight, in any interleaving |
| Measurements.EachCleansUp | runtime/internal/cartesianmeasure/primitiveMeasurementRegistry.go:181-185 | in every interleaving of measurements, nothing is tracked for one that has ended, at that moment or later |
| Measurements.EachRunsAsAlone | runtime/internal/databuffer/buffer_management.go:102-428 | at every moment a measurement sees its own entries as it would if it ran alone, if and only if no other one registers a buffer that is tracked for it |
| Measurements.UnsharedRunAsAlone | runtime/internal/databuffer/buffer_management.go:102-428 | which is so for all of them when no two are sent the same buffer |
| Measurements.AllCleanUp | runtime/internal/databuffer/buffer_management.go:102-428 | when all have ended nothing is tracked, and the library holds no reference if and only if no tracked buffer was registered again |
| DispatchProtocol.DecimalInjective | runtime/internal/dispatcher/dispatcher.go:138-145 | the decimal rendering of counters can be read back, and so is injective |
| DispatchProtocol.IdsRepeatAfterWrapping | runtime/internal/dispatcher/dispatcher.go:138-145 | two calls of the counter get the same id if and only if it has gone all the way round between them |
| DispatchProtocol.AlwaysSequential | runtime/internal/dispatcher/dispatcher.go:385-417 | in every interleaving each worker has done a beginning of what it would do alone, under its own number |
| DispatchProtocol.DispatchIsSequential | runtime/internal/dispatcher/dispatcher.go:385-417 | concurrent dispatch refines a sequential map: each slot holds the outcome of its own request and its events are those of running it alone |
| DispatchProtocol.SlotsAreExact | runtime/internal/dispatcher/dispatcher.go:345-417 | in every interleaving, a finished slot holds the returned calls if and only if the script answered with them and the log shows every returned buffer registered without a failure; otherwise it holds the script's message, or that of the last registration in the log |
| DispatchProtocol.IdsAreDistinct | runtime/internal/dispatcher/dispatcher.go:138-145 | result ids are pairwise distinct while the counter has not wrapped |
| DispatchProtocol.BuffersAreOwned | runtime/internal/dispatcher/dispatcher.go:303-315 | every buffer registered for a request is registered under the id in that request's slot |
| DispatchProtocol.NeverStuck | runtime/internal/dispatcher/dispatcher.go:385-417 | a worker that is not done can always go on, whatever it is answered |
| Decoder.ConsumeIdsExact | runtime/internal/cartesianmeasure/measurement_decoder.go:193-246 | consuming a list of buffers succeeds exactly when they are distinct and readable by the owner; each is then consumed once |
| Decoder.DecodeItemsExact | runtime/internal/cartesianmeasure/target_series.go:54-77 | decoding returns succeeds exactly when they are decodable from what is tracked at the start; samples come in order and exactly the mentioned buffers go |
| Decoder.DecodingExact | runtime/internal/cartesianmeasure/target_series.go:27-85 | the same for all targets at once, with the number of samples equal to the product of the shape |
| Decoder.AllUsableMeans | runtime/internal/cartesianmeasure/measurement_decoder.go:227-246 | usable lists are those of distinct buffers that the owner can read |
| Decoder.OtherCallsDoNotMatter | runtime/internal/cartesianmeasure/target_series.go:49-54 | the decoding of a target depends on the calls on that target alone |
| Decoder.InsertedCalls | runtime/internal/cartesianmeasure/target_series.go:49-54 | inserting calls of other targets changes nothing |
| Decoder.ExchangedCalls | runtime/internal/cartesianmeasure/target_series.go:49-54 | exchanging neighbouring calls that are not both on the target changes nothing |
| Decoder.DecodingTakesOwn | runtime/internal/cartesianmeasure/target_series.go:27-85 | however decoding ends, only the measurement's own buffers have gone |
| Decoder.ReturnSamples | runtime/internal/cartesianmeasure/measurement_decoder.go:193-225 | the loop over buffers computes the specified consumption, result and remaining buffers |
| Decoder.ConvertSamples | runtime/internal/cartesianmeasure/measurement_decoder.go:248-292 | conversion in place succeeds exactly when the units are compatible and every sample converts; each sample is then replaced by its own conversion |
| Decoder.ConvertedExactly | runtime/internal/cartesianmeasure/measurement_decoder.go:284-289 | converted samples are the conversions of the samples, one by one |
| Decoder.SeriesHold | runtime/internal/cartesianmeasure/target_series.go:27-85 | each decoded series has its target, unit and shape, and holds what its own returns report, in call and return order, every sample converted from its reported unit into the series' unit |
| Decoder.ItemsAre | runtime/internal/cartesianmeasure/target_series.go:49-70 | a series is read from exactly the returns of calls on its endpoint that have a convertible unit, and are buffers if only buffers are wanted |
| Decoder.DecodeTargets | runtime/internal/cartesianmeasure/target_series.go:27-85 | the nested loops compute the specified decoding, result and remaining buffers |
| PrimitiveDecoding.BuildSpecs | runtime/internal/cartesianmeasure/primitive_code.go:295-314 | one specification per getter, shaped by the step counts and the samples per position |
| PrimitiveDecoding.DecodePrimitive | runtime/internal/cartesianmeasure/primitive_code.go:268-327 | the exact condition of success, the output it then has, and that only own buffers are taken |
| PrimitiveDecoding.OutputReads | runtime/internal/cartesianmeasure/primitive_code.go:295-327 | a getter's output is what the returns that belong to it report, converted into the getter's unit; above dimension zero only buffers belong |
| EndToEnd.DecodedSizes | runtime/internal/cartesianmeasure/primitive_code.go:295-314 | a decoded leaf has for each getter the product of its counts times the samples per position |
| EndToEnd.RecordedSamplesConserved | runtime/internal/cartesianmeasure/planner.go:88-111 | merging the outputs of all leaves of a plan gives every getter the product of all axis lengths times its samples per position, and nothing to anybody else |
| EndToEnd.SamplesConserved | runtime/internal/cartesianmeasure/planner.go:88-111 | so a plan that runs through has these samples of every getter, whatever the executor |
| EndToEnd.NoGetterMissing | runtime/internal/cartesianmeasure/planner.go:61-82 | a sweep that has positions has samples of every getter |
| EndToEnd.ConservedAverages | runtime/internal/cartesianmeasure/cartesian_handler.go:237-261 | averaging then succeeds and leaves exactly the product of the axis lengths |
| EndToEnd.AveragingInLeaves | runtime/internal/cartesianmeasure/cartesian_handler.go:237-261 | for a planned request, averaging once at the end is averaging inside every leaf |
| EndToEnd.PlannedRangesFit | runtime/internal/cartesianmeasure/databaseBuilding.go:217-230 | for a planned request the length check against the shape holds for every getter |
| Registry.RegisterReturns | runtime/internal/dispatcher/dispatcher.go:96-128 | registers the returned buffers in order up to the first failure; what it has claimed and overwritten |
| Registry.Dispatcher.RunOne | runtime/internal/dispatcher/dispatcher.go:339-366 | one measurement under a fresh id, with its outcome and what it has claimed |
| Registry.BuildMeasurementRegistry | runtime/internal/cartesianmeasure/primitiveMeasurementRegistry.go:111-152 | succeeds exactly for a non-empty list of distinct, known and complete dimensions |
| Registry.OwnScripts | runtime/internal/cartesianmeasure/primitiveMeasurementRegistry.go:68-86 | each dimensionality comes with the script whose schema its encoder follows |
| Registry.MeasurementRegistry.RunMeasurement | runtime/internal/cartesianmeasure/primitiveMeasurementRegistry.go:157-211 | which inputs get as far as their script, and why the others do not; on every way out after that, own entries are gone, other entries stand unless the script returned them, and a reference is lost exactly on re-registration; so a new id and returned buffers that nobody tracks leave everything tracked as it was, and no reference is lost if none is returned twice; the output is what the input's own script returned for its encoding, and each failure has its own cause |
| Registry.CleanUp | runtime/internal/cartesianmeasure/primitiveMeasurementRegistry.go:181-185 | the deferred release restores everything but the entries that were re-registered |
| Registry.LeavesWhatItFound | runtime/internal/cartesianmeasure/primitiveMeasurementRegistry.go:157-211 | what a measurement leaves tracked is exactly what it found if and only if its id was new and it claimed nothing that was tracked |
| Registry.LeavesNoTrace | runtime/internal/cartesianmeasure/primitiveMeasurementRegistry.go:157-211 | so a new id and an answer whose buffers nobody tracks leave exactly what was found, however few of them were claimed; and no reference is lost if the answer names none of them twice |
| PlanRuns.ExecuteOn | runtime/internal/cartesianmeasure/planner.go:33-111 | a whole plan on the registry: one visit per leaf, in order and with consecutive numbers, up to the first failure; each output explained by its own visit, merged in order; and the store, counter and references the visits leave, exactly |
| PlanRuns.EndedAppend | runtime/internal/cartesianmeasure/planner.go:88-111 | runs of leaves compose: what holds of two lists one after the other holds of both together |
| PlanRuns.AfterVisitsAppend | runtime/internal/cartesianmeasure/primitiveMeasurementRegistry.go:181-185 | so does what the visits leave tracked |
| PlanRuns.RefusedFromTheStart | runtime/internal/cartesianmeasure/primitiveMeasurementRegistry.go:161-180 | an input that does not get as far as its script ends the execution with no script called |
| PlanRuns.VisitsLeaveWhatTheyFound | runtime/internal/cartesianmeasure/primitiveMeasurementRegistry.go:157-211 | a list of measurements leaves exactly what it found if and only if each of them had a new id and claimed nothing that was tracked |
| PlanRuns.TidyServerLeavesNoTrace | runtime/internal/cartesianmeasure/primitiveMeasurementRegistry.go:157-211 | when ids are new and scripts return only buffers that nobody tracks, executing a plan leaves exactly what it found, however it ends; and it loses no reference if no script returns a buffer twice |
| FaithfulServer.FaithfulIsRowMajor | runtime/internal/cartesianmeasure/primitive_code.go:266-268 | when every script does what its arguments say, what is decoded for an input is the device's responses along that input's trace, converted into the getters' units |
| FaithfulServer.FaithfulNeverFails | runtime/internal/cartesianmeasure/primitiveMeasurementRegistry.go:157-211 | no visit to such a server can fail: not the script, nor the registration, nor the decoding |
| FaithfulServer.FaithfulRun | runtime/internal/cartesianmeasure/planner.go:88-111 | so the execution of any list of such inputs succeeds, with the responses along their traces merged in order |
| FaithfulServer.BuiltIsFaithful | runtime/internal/cartesianmeasure/primitive_code.go:146-264 | there is such a server for every device, however what it measures depends on the voltages and in whatever units it reports: one that looks at the arguments alone |
| FaithfulServer.DetectorExpected | runtime/internal/cartesianmeasure/primitive_code.go:268-314 | a device that tells one assignment of voltages from all others is among them |
| Handler.Measure | runtime/internal/cartesianmeasure/cartesian_handler.go:174-284 | register, plan, read points, execute, average, label and record on the real stack: exactly which requests are executed, and why others are not; with the whole execution on record, how each response follows from it, what stays tracked, and that for a plannable request only execution and recording can fail, with full arrays, one for each getter |
| Handler.AverageAndLabel | runtime/internal/cartesianmeasure/databaseBuilding.go:184-249 | one array for each getter of the merged output, with its averages and the plan's shape; and the exact cause of each failure |
| Handler.PosedCannotFail | runtime/internal/cartesianmeasure/databaseBuilding.go:217-230 | for a plannable request neither averaging nor the length check can fail |
| Handler.PosedLabels | runtime/internal/cartesianmeasure/databaseBuilding.go:232-248 | and every array has one number per position, with no getter missing |
| Handler.LeavesDispatchable | runtime/internal/cartesianmeasure/primitive_code.go:121-264 | on the program's own scripts the leaves of a proper request reach their script if and only if the largest dimensionality in reach is below two, or there are two axes |
| Handler.BeyondIsRefused | runtime/internal/cartesianmeasure/primitive_code.go:220-264 | a proper request of three axes or more with the 2D script on offer always ends in an encoding error, before any script is called |
| Handler.MeasuresTheReference | runtime/internal/cartesianmeasure/planner.go:425-521 | with scripts that are row-major for the plan's own inputs, the merged samples of an executed request are the device's responses along the row-major walk over the whole sweep, whatever scripts were available |
| Handler.ArraysOfReference | runtime/internal/cartesianmeasure/cartesian_handler.go:237-261 | and each array holds the averages of its getter's responses along that walk, under the gate, unit and instrument type of the getter's port |
| Handler.PlanReads | runtime/internal/cartesianmeasure/target_series.go:27-85 | in an executed plan every leaf reads every getter at its port's endpoint, each sample converted from the reported unit into the unit of the request's port |
| Handler.FaithfulExecution | runtime/internal/cartesianmeasure/planner.go:88-111 | a request that can be encoded, on scripts that do what their arguments say, always executes, and gives the device's responses along that walk, in the units of the getters' ports |
| Handler.FaithfulResponse | runtime/internal/cartesianmeasure/cartesian_handler.go:237-284 | and its response has for each getter the averages of those responses under the getter's label, unless the recorder fails |
| Handler.RequestCanBeServed | runtime/internal/cartesianmeasure/primitive_code.go:146-264 | for every such request and every device that measures as announced there is a server like that |
| WireCodec.DecodeEncode | runtime/internal/instrumentserver/client.go:554-807 | decoding an encoded value gives its normal form, at every depth, and never panics |
| WireCodec.NormalizeIdempotent | runtime/internal/instrumentserver/client.go:720-807 | normal forms are normal |
| WireCodec.SameWireSameNormalForm | runtime/internal/instrumentserver/client.go:554-718 | two accepted values have the same wire form if and only if they have the same normal form |
| WireCodec.EncodeDecode | runtime/internal/instrumentserver/client.go:720-807 | re-encoding a decoded wire value gives it back if and only if it is canonical |
| WireCodec.EncodesAccepted | runtime/internal/instrumentserver/client.go:554-718 | the encoder accepts exactly the values without a single data buffer, an unknown type or a too large uint64, at every depth |
| WireCodec.NumberSurvives | runtime/internal/instrumentserver/client.go:564-614 | an accepted number survives if and only if it fits int64; a larger uint wraps without a complaint |
| WireCodec.TypeAndWireDetermine | runtime/internal/instrumentserver/client.go:485-552 | declared type and wire form determine a value, except for the tags inside maps |
| WireCodec.DeclaredType | runtime/internal/instrumentserver/client.go:485-541 | which values each declared type is for, exactly |
| WireCodec.ManifestFitsWire | runtime/internal/instrumentserver/client.go:485-718 | under each declared type stands a value that the type is for, in the wire field of its kind |
| WireCodec.MapsLoseTags | runtime/internal/instrumentserver/client.go:536-540 | two maps with different tags send the same type and wire form |
| WireCodec.BuildMeasureJobRequest | runtime/internal/instrumentserver/client.go:809-838 | the loop computes the specified request, error or panic |
| WireCodec.RequestBuilt | runtime/internal/instrumentserver/client.go:809-838 | succeeds exactly when every variable can be sent, listing them in order; otherwise the first that cannot decides between error and panic |
| WireCodec.RequestDeterminesVariables | runtime/internal/instrumentserver/client.go:809-838 | with distinct names a request determines names, order and values of its variables, except for tags inside maps |
| WireCodec.RetagRecovers | runtime/internal/instrumentserver/client.go:900-908 | returned buffers come back as buffers, everything else in its normal form |
| WireCodec.RetagsBuffersOnly | runtime/internal/instrumentserver/client.go:900-908 | exactly the strings declared as a buffer become buffers, and nothing else changes, for every pair of type and value |
| WireCodec.CallsComeBack | runtime/internal/instrumentserver/client.go:881-928 | what the script server sends of a call comes back as that call, returns with their names, units and values in normal form |
| WireCodec.CallResults | runtime/internal/instrumentserver/client.go:881-928 | every command and parameter is read in order; it panics exactly when some value cannot be decoded |

## Left out

- The scripts themselves: a script is an executor that emits its positions in row-major order,
  as runtime/internal/cartesianmeasure/primitive_code.go:266-268 asks; nothing is proved about Lua.
- `falconcore` handles, `CreateArray`, `Compile` and unit conversion: each axis comes with its
  list of points, its ports and their directions, and conversion is a parameter. Errors of these
  calls are not modelled.
- Ports as library handles: enumerations are integer codes, and a nil port list is an empty one.
- Floating-point rounding, NaN and infinity: samples and voltages are `real`. Converting a sample
  of an integer buffer is exact in the model.
- Serialisation of targets and domains: an abstract codec that may refuse. That it is injective,
  as a round trip makes it, is a hypothesis only of what is said about arguments.
- `sort.Slice`: an insertion sort with the same order stands in for it.
- Error texts; only the kind of an error is kept, and errors that a caller cannot tell apart
  share a kind.
- The rest of `Handle`: source voltages, state updates, metadata, ids and the database. Their
  errors can end a request early; the recorder's verdict is an input of `Handler.Measure`.
  `BuildDatabaseEntry` also drops the arrays when its `CreateArray` call fails.
- Reading sample counts (runtime/internal/cartesianmeasure/getSettings.go:84-206): the counts are
  an input of `Handler.Measure`; which setting supplies them is a short search.
- Script discovery: the list of available dimensionalities is an input, and script paths and the
  check that a script file exists are part of the script server's answer.
- `Decode` and `decodeSeries` (runtime/internal/cartesianmeasure/measurement_decoder.go:50-191),
  which name a verb and a return: they use the same sample collection as `DecodeTargets`.
- gRPC transport, job polling and timeouts, execution timestamps and buffer metadata of returns.
- Listing and statistics in the buffer manager: short lookups. So is `ReadBuffer`
  (runtime/internal/databuffer/buffer_management.go:260-326), which hands out shared memory after
  it has dropped the lock and has no caller outside the tests.
- Port classification into knobs, meters and settings, building the port library, and YAML.
- Go's panics on an empty waveform list before planning; `Planner.BuildPlan` has the error that
  planning itself reports.
- Registry.MeasurementRegistry.RunMeasurement: other threads do not run between its steps; their
  interleavings with registration, consumption and sweeping are in `BufferProtocol` and
  `Measurements`, and those of dispatching workers in `DispatchProtocol`.
- Measurements.EachRunsAsAlone: a thread runs one measurement, which registers and consumes and
  then sweeps once; its number is below 2^64, from where ids repeat.
- BufferProtocol.AlwaysConserved: the step machine keeps owners and references of buffers but not
  their samples, which only the class in `Buffers` has.
- Handler.Measure: asks that the sweep has at most 2^63 - 1 positions; a Go slice cannot hold more.
