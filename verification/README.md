# Verified cores of the dragon device tree

This project models five self-contained algorithms of the repository in Dafny and proves what each of them is for. The
parts do not depend on each other.

**Frame composition** (`drm_hwcomposer`). A frame is a stack of layers with rectangular frames. `SeparateRects` is the sweep
that cuts overlapping rectangles into disjoint ones, each tagged with the inputs over it; `RegionArea` turns that into a
statement about areas. `SquashState` remembers which regions have not changed lately. `PlanStages`, `PlanLaws`,
`PlanTheorems` and `Planner` assign layers to hardware planes in five stages, as functions and as the methods that
edit the composition, the layer map and the plane list; `PlanPlaces` tells every plan from the input alone. `HolePunch`
cuts the precomposition into regions; `ReleaseFences` gives every buffer its point on the timeline;
`DisplayComposition` puts one frame together. What is visible at a pixel is
the sequence of layer indices painted there, from the bottom up, and `Visible` drops what lies under the last protected
(opaque) layer; `LayerStacks` and `CompositionLaws` say at exactly which pixels planes and precomposition together paint that
sequence. `DisplayExample` has a run of frames and a plan that do not paint it everywhere.

**The audio DSP graph** (`audio/hal`). `DspIni` reads port entries into named flows, `DspTrails` follows data up through
disabled plugins and `DspWalk` says when that walk ends, `DspSort` is the depth-first topological sort, `DspBuffers` the
allocation of audio buffers, `DspPeak` the proof that none does with fewer, `DspDelay` the delay of every instance,
`DspRun` the run itself in shared buffers, `DspPipeline` the way from graph to pipeline, and `DspPlay` what a pipeline
plays, told by plugins and flows alone.
`DspFile` joins the ini entries, the disable conditions and the pipeline. `DspExample` has a graph whose pipeline loses its
input and one on which no pipeline is ever made.
`ExprText`, `ExprParser` and `ExprEval` are the language of the disable conditions, `Dictionary` the table under the file.

**The boot flags** (`recovery/updater`). `Flash` is a NOR chip on which writing clears bits and erasing sets them;
`VbnvRecords`, `VbnvFields`, `VbnvLog` and `Vbnv` keep 16-byte records in it, and `VbnvRuns` compares any run of settings
with a plain table. `VbnvExample` is a flash on which a refused setting loses the other flags.

**Core dumps** (`crash_collector`). `CoredumpSegments`, `CoredumpStreams` and `CoredumpWriter` drop file-backed segments from
a dump that can only be read once, forwards, in pieces of any size.

Each imperative part is a class or a method with loops, specified by functions on values; the lemmas are about those
functions. Sets of identifiers stand for 64-bit masks, sequences for vectors, and bit-vectors for bytes and checksums.

`Options`, `Divisibility` and `Slices` hold what several parts share.

## What turned out not to hold as written

- Exclusion rectangles that do not fit are counted down (drm_hwcomposer/drmdisplaycomposition.cpp:166-172), but the layers keep
  their old offset, so the separation is given more than 64 rectangles and returns nothing: the precomposition is lost where
  it had something to show. `DisplayExample.DotsAreLost` plans eight frames of 34 layers of which this happens to the last.
- Rotated protected layers are put at the bottom of the composition, each below the one before (drm_hwcomposer/platformnv.cpp:243-268),
  so two of them over the same pixel are stacked the wrong way round (`DisplayExample.SpunClash`). The code presumes one
  primary plane for each CRTC; then this does not happen (`CompositionLaws.OnePrimaryNoClash`). In general it happens to the
  lowest supported rotated protected layers, as many as there are primary planes left (`CompositionLaws.ClashesFromGiven`).
- The squash framebuffer takes the highest plane also when it is the only one (drm_hwcomposer/platform.cpp:51-60); nothing is
  then composited (`CompositionLaws.NoPlanesShowStack`).
- `DrmDisplayComposition.Plan` states the exact consequence of all three: the picture is right at a pixel outside the squashed
  regions if and only if every unprotected layer there has a place, nothing was lost there, and no two rotated protected
  layers cover it without a protected layer above them.
- Looking for the origin of an input (audio/hal/cras_dsp_pipeline.c:164-226) does not end on every graph
  (`DspExample.EddyNeverEnds`); it ends if and only if the way upstream through disabled plugins does not come by an input twice
  (`DspWalk.WalkEndsIff`).
- Running the pipeline in shared buffers (audio/hal/cras_dsp_pipeline.c:781-790) gives every instance the inputs it would have
  with private buffers if and only if no instance in front of the source writes the buffer of a source port that is read
  (`DspRun.SharedIsPrivateIff`). `DspExample.FountainIsLoaded` makes a pipeline in which one does; `DspPlay.PlayGraph` plays
  right on every graph in which only the source starts a flow of audio.
- A record appended to the flags is found again exactly when the record behind it is erased
  (`VbnvLog.AppendedCountsIff`); `VbnvLog.AppendLaws` shows that the code itself never leaves such a gap.
- When the section is full and the erase is aligned but a record is not, the erase happens and the write is then refused:
  all flags are lost. `Vbnv.PutRecord` and `Vbnv.SetFlag` state this outcome, `VbnvExample.UsbFlagIsLost` shows it on a section as small as the
  least write.
- A list with a stray `#` behind its parts is accepted, without the mark, if and only if the closing parenthesis follows at
  once; otherwise the whole list is refused (`ExprText.StrayMark`).

## Model

| member | source | states |
|---|---|---|
| SeparateRects.SeparateRects64 | drm_hwcomposer/separate_rects.cpp:74-305 | for up to 64 rectangles the output is non-empty and pairwise disjoint, covers exactly the points of valid inputs, and tags each rectangle with exactly the inputs over each of its points; for more it is empty |
| SeparateRects.CollectEvents | drm_hwcomposer/separate_rects.cpp:109-126 | the ordered left and right edges of exactly the non-empty inputs |
| SeparateRects.StepEvents | drm_hwcomposer/separate_rects.cpp:128-161 | the vertical events stay those of the inputs whose left edge was passed and whose right edge was not |
| SeparateRects.BuildCrossSection | drm_hwcomposer/separate_rects.cpp:185-203 | the list of edges gives at every height the set of active inputs there |
| SeparateRects.MarkBands | drm_hwcomposer/separate_rects.cpp:216-272 | afterwards exactly the bands of the cross section are marked as seen; started ones keep their left edge |
| SeparateRects.FinishUnseen | drm_hwcomposer/separate_rects.cpp:281-303 | ends exactly the unseen bands and keeps everything swept so far covered once, with the right tags |
| SeparateRects.Stop | drm_hwcomposer/separate_rects.cpp:179-303 | one stop of the sweep keeps the swept part separated and starts the strip to its right with the right cross section |
| SeparateRects.CarryOn | drm_hwcomposer/separate_rects.cpp:163-173 | between two stops nothing changes, so the separated picture extends to the next stop |
| Geometry.AreaCountsPixels | drm_hwcomposer/separate_rects.h:70-80 | the area of a rectangle is the number of its pixels |
| RegionArea.AllChosenFillInput | drm_hwcomposer/drmdisplaycomposition.cpp:342-350 | when all separated regions over a layer are stable, their areas add up to the area of the layer |
| RegionArea.OneMissingFallsShort | drm_hwcomposer/drmdisplaycomposition.cpp:357-360 | with one unstable region over the layer the sum stays below its area |
| SquashStates.SquashState.Init | drm_hwcomposer/drmdisplaycompositor.cpp:44-66 | a new generation: regions are the separated frames of the layers, no history, nothing squashed |
| SquashStates.SquashState.GenerateHistory | drm_hwcomposer/drmdisplaycompositor.cpp:68-88 | a region changed exactly when a layer over it is protected or has a new handle; a wrong layer count reports no change |
| SquashStates.SquashState.StableRegionsWithMarginalHistory | drm_hwcomposer/drmdisplaycompositor.cpp:90-97 | stable are the regions that did not change now and are stable so far |
| SquashStates.SquashState.RecordHistory | drm_hwcomposer/drmdisplaycompositor.cpp:99-123 | histories stay those of the frames seen since the last start; mismatched sizes change nothing |
| SquashStates.SquashState.RecordAndCompareSquashed | drm_hwcomposer/drmdisplaycompositor.cpp:125-142 | records the squashed set and reports exactly whether it changed |
| SquashStates.SquashState.ObserveFrame | drm_hwcomposer/drmdisplaycomposition.cpp:312-327 | over any run, a region is stable exactly when at least six frames were recorded and none of its layers changed or was protected in this and the six frames before; when the framebuffer is reused, the stable set and all its handles are those of the last rendering |
| SquashStates.StableSays | drm_hwcomposer/drmdisplaycompositor.cpp:90-123 | on frames of the same layers: stable if and only if at least six frames were recorded, counted modulo 2^32, and in this and the last six frames every layer of the region is unprotected and has kept its handle |
| HolePunch.SetBitsToVector | drm_hwcomposer/drmdisplaycomposition.cpp:124-133 | the mapped indices of the set bits, highest first |
| HolePunch.RemoveHidden | drm_hwcomposer/drmdisplaycomposition.cpp:206-217 | removes exactly the layers below a dedicated layer over the region when the shifts are defined, also where the 32-bit shift sign-extends; never adds a layer |
| HolePunch.PunchRegions | drm_hwcomposer/drmdisplaycomposition.cpp:191-224 | regions list only precomposition layers; when the shifts are defined they are disjoint, avoid the excluded rectangles, and at every other pixel list from the top down exactly the precomposition layers there that are not below a dedicated layer over the pixel |
| Planner.Board.Emplace | drm_hwcomposer/platform.h:91-102 | takes the lowest plane and puts the layer right before the precomposition, or fails when there is no plane |
| Planner.Board.ProvisionNvLimits | drm_hwcomposer/platformnv.cpp:336-371 | unsupported layers go to the precomposition or, if protected, are dropped |
| Planner.Board.ProvisionProtectedRotated | drm_hwcomposer/platformnv.cpp:224-286 | the rotated protected layer goes on the primary plane at the bottom, layers under it to the precomposition |
| Planner.Board.ProvisionProtected | drm_hwcomposer/platform.cpp:91-141 | protected layers get planes in order, layers under the last of them go to the precomposition |
| Planner.Board.ProvisionPrecomp | drm_hwcomposer/platform.cpp:143-169 | layers over the lowest precomposed layer join the precomposition |
| Planner.Board.ProvisionGreedy | drm_hwcomposer/platform.cpp:171-194 | remaining layers get remaining planes, the rest goes to the precomposition |
| Planner.ProvisionPlanes | drm_hwcomposer/platform.cpp:39-89 | fails if and only if no plane of the pools supports the CRTC; otherwise the squash plane on top and the five stages in between. Without rotated protected layers the planes of the composition ascend in the pools, primary before overlay, and the squash framebuffer is on the highest plane that supports the CRTC |
| Planner.PoolsInOrder | drm_hwcomposer/platform.cpp:26-37 | the usable planes are all planes of both pools that support the CRTC, at ascending places of the pools |
| PlanStages.CheckSays | drm_hwcomposer/platformnv.cpp:288-334 | a layer is supported if and only if it is premultiplied when it has one of the four 32-bit formats and is not the lowest, is not scaled down more than four times across, nor more than four times down, for those four and unknown formats twice |
| PlanTheorems.PlanLawful | drm_hwcomposer/platform.cpp:62-82 | after all stages layers and planes are conserved, there is at most one precomposition, only protected layers were dropped, and with a usable plane no layer is left over |
| PlanTheorems.EveryLayerPlacedOnce | drm_hwcomposer/platform.cpp:39-89 | every layer is on at most one plane, every unprotected one on exactly one if and only if there is a usable plane, and no hardware plane is used twice |
| PlanTheorems.PlanOrder | drm_hwcomposer/platform.cpp:143-169 | every unprotected dedicated layer is below every precomposed layer |
| PlanTheorems.PlanShape | drm_hwcomposer/platformnv.cpp:224-286 | the dedicated layers of any plan are the rotated protected ones followed by an ascending rest that was left above all of them |
| PlanTheorems.AfterRotatedMembers | drm_hwcomposer/platformnv.cpp:224-286 | rotated protected layers are stacked from the top down; what is left is above all of them and not one of them, and precomposed protected layers are not above the highest |
| PlanTheorems.PrecomposedProtected | drm_hwcomposer/platformnv.cpp:270-283 | a protected layer is precomposed only when it is not above the highest rotated one with a plane |
| PlanTheorems.PlanOrderUnrotated | drm_hwcomposer/platform.cpp:91-141 | without rotated protected layers, dedicated layers and their planes both ascend along the composition and precomposed layers are unprotected |
| PlanTheorems.PlainStack | drm_hwcomposer/platform.cpp:171-194 | when all layers are supported and none is protected, the lowest layers get a plane each and exactly the overflow is precomposed |
| LayerStacks.PlanShowsStack | drm_hwcomposer/drmdisplaycomposition.cpp:140-225 | at a pixel outside the excluded rectangles dedicated planes and precomposition regions show the same visible stack as all placed layers in z-order if and only if no two rotated protected layers clash there |
| LayerStacks.NoRegionsShowStack | drm_hwcomposer/drmdisplaycomposition.cpp:160-172 | without precomposition regions the stack is right exactly where, in addition, the precomposition had nothing to show |
| CompositionLaws.PlanIsOrdered | drm_hwcomposer/platform.cpp:62-82 | in every plan rotated protected layers come first and descend, the others ascend above them, protected layers are precomposed only below the highest rotated one, and unprotected dedicated layers are below every precomposed one |
| CompositionLaws.FinishedShowsStack | drm_hwcomposer/drmdisplaycomposition.cpp:357-398 | the finished composition with its sorted sources and its regions shows the visible layer stack at a pixel outside the excluded rectangles if and only if no two rotated protected layers clash there |
| CompositionLaws.OverflowShowsStack | drm_hwcomposer/drmdisplaycomposition.cpp:165-172 | with too many rectangles the picture is right at exactly the pixels where nothing had to be precomposed and no two rotated protected layers clash |
| CompositionLaws.PlannedAreHoused | drm_hwcomposer/platform.cpp:39-89 | with a plane for layers, every unprotected layer over a pixel whose layers are all planned is on a plane or precomposed |
| CompositionLaws.NoPlanesShowStack | drm_hwcomposer/platform.cpp:51-87 | when the squash framebuffer takes the only plane nothing clashes, and a pixel is right if and only if no unprotected layer covers it |
| CompositionLaws.OnePrimaryNoClash | drm_hwcomposer/platformnv.cpp:234-254 | with one usable primary plane no two rotated protected layers ever clash |
| PlanTheorems.RotatedPartIsGiven | drm_hwcomposer/platformnv.cpp:224-286 | the layers the rotated stage puts on planes are the lowest supported rotated protected ones, as many as there are primary planes left after the unsupported layers have got theirs, the highest first |
| PlanPlaces.PlanIsGiven | drm_hwcomposer/platform.cpp:62-82 | the dedicated layers of any plan, told from the input alone: the rotated part, then the lowest upright protected layers above it, then the lowest unprotected supported layers below everything that is precomposed anyway; one of them is left out only when no plane is left |
| PlanPlaces.PrecomposedIsGiven | drm_hwcomposer/platform.cpp:143-194 | precomposed are exactly the unprotected layers without a plane and the protected ones, not rotated, below the highest rotated one |
| PlanPlaces.PlanesAreGiven | drm_hwcomposer/platformnv.cpp:234-268 | the hardware planes of any plan: the first primary ones for the rotated layers, the last of these at the bottom, and all others in the order in which they are |
| CompositionLaws.ClashesFromGiven | drm_hwcomposer/platformnv.cpp:224-286 | a finished composition clashes at a pixel if and only if two of those layers cover it with nothing protected shown above the higher one |
| DisplayComposition.LeftOutIffAllStable | drm_hwcomposer/drmdisplaycomposition.cpp:329-360 | a layer of positive area is left out of the plan exactly when every region over it is stable |
| DisplayComposition.SquashShowsStack | drm_hwcomposer/drmdisplaycomposition.cpp:337-354 | the layers a squash region lists, from the bottom up, are all layers over each of its pixels |
| DisplayComposition.RenderedIsRight | drm_hwcomposer/drmdisplaycomposition.cpp:337-354 | a pixel lies in a region to be rendered if and only if it lies in a stable region; no two regions share a pixel, and the sources of each, reversed, are the full layer stack at each of its pixels |
| DisplayComposition.TakeUsed | drm_hwcomposer/drmdisplaycomposition.cpp:376-396 | sorts the sources and removes exactly the used planes from the two pools, whose other planes keep their order |
| DisplayComposition.DrmDisplayComposition.SquashStep | drm_hwcomposer/drmdisplaycomposition.cpp:301-364 | without a squash state nothing is excluded and everything planned; with a new geometry the state starts over and everything with an area is planned; otherwise exactly the stable regions are excluded, the layers over an unstable region planned, and, exactly when the stable set is not the one squashed last, regions are added that cover exactly the stable regions, no pixel twice, each with the full layer stack at all of its pixels |
| DisplayComposition.DrmDisplayComposition.SeparateLayers | drm_hwcomposer/drmdisplaycomposition.cpp:140-225 | appends nothing without a precomposition or with too many rectangles, and exact precomposition regions otherwise, when the shifts are defined |
| DisplayComposition.DrmDisplayComposition.Plan | drm_hwcomposer/drmdisplaycomposition.cpp:290-399 | fails exactly without usable planes or when a fence is refused; decides exclusion, planned layers and the squash regions with their sources as `SquashStep` does; the composition is the plan of the five stages and the pools lose exactly the planes used; with a plane left for layers every unprotected layer outside the squashed regions has a place; and unless the separation is undefined fences are right and a pixel outside the squashed regions shows the layer stack if and only if every unprotected layer there has a place, nothing was lost to too many rectangles there, and no two rotated protected layers clash there |
| DisplayExample.DotsAreLost | drm_hwcomposer/drmdisplaycomposition.cpp:164-172 | a run of eight frames with 32 still layers and two that change: in the last frame at least 63 regions are squashed, the two changing layers are precomposed, there are too many rectangles, and the screen does not show them |
| DisplayExample.SpunClash | drm_hwcomposer/platformnv.cpp:224-286 | two rotated protected layers over one pixel: they clash, and the screen does not show the stack |
| ReleaseFences.Timeline.CreateAndAssignReleaseFences | drm_hwcomposer/drmdisplaycomposition.cpp:227-288 | for any order of the sets, the fence of a layer lies behind its last reader: after the precomposition point on a plane, between the two points if precomposed, else at or before the squash point; when a fence is refused it fails, no layer is released, and only layers that are read have fences |
| ReleaseFences.Timeline.IncreaseTimelineToPoint | drm_hwcomposer/drmdisplaycomposition.cpp:72-84 | the signalled point only moves forward, and only when the kernel agrees |
| ReleaseFences.Timeline.SignalSquashDone | drm_hwcomposer/drmdisplaycomposition.h:124-126 | releases only layers that neither the precomposition nor a plane reads, and never passes the last fence |
| ReleaseFences.Timeline.SignalPreCompDone | drm_hwcomposer/drmdisplaycomposition.h:127-129 | releases no layer that is on a plane |
| ReleaseFences.Timeline.SignalCompositionDone | drm_hwcomposer/drmdisplaycomposition.h:130-132 | releases exactly the layers that were read |
| DspIni.Ini.LookupOrAddFlow | audio/hal/cras_dsp_ini.c:81-91 | the flow of that name, appended only when there is none; names stay distinct |
| DspIni.Ini.ParsePluginSection | audio/hal/cras_dsp_ini.c:93-164 | ports up to the first missing number: port `i` is an input exactly when `input_i` is given, of audio exactly when its value starts with `{`, of control exactly when it starts with `<`, and names no flow otherwise; fails exactly on a missing library or label or an empty value |
| DspIni.Ini.FillFlowInfo | audio/hal/cras_dsp_ini.c:166-193 | every flow knows the last output and the last input port that name it |
| DspIni.CreateIni | audio/hal/cras_dsp_ini.c:196-227 | the graph is well formed, every port has the direction, the kind and the value its entry has in the file, and it fails exactly when a section has no library or no label or an empty port value |
| DspIni.JoinedIffNamedAlike | audio/hal/cras_dsp_ini.c:117-121 | two ports are joined exactly when their values are equal and name a flow |
| DspIni.ReadIsWellFormed | audio/hal/cras_dsp_ini.c:117-121 | all ports of a flow are of one kind and every audio port has a flow |
| DspTrails.OriginUnique | audio/hal/cras_dsp_pipeline.c:161-226 | an input has at most one first enabled output upstream |
| DspTrails.OriginInjective | audio/hal/cras_dsp_pipeline.c:161-226 | with one reader for each audio flow, two inputs of enabled plugins never have the same origin, bypasses included |
| DspTrails.OriginKind | audio/hal/cras_dsp_pipeline.c:187-207 | passing by disabled plugins keeps the kind of the data |
| DspTrails.BypassSays | audio/hal/cras_dsp_pipeline.c:187-221 | in a disabled plugin an output stands for an input if and only if both are of the same kind and as many outputs of this kind are in front of the one as inputs in front of the other |
| DspTrails.FromSays | audio/hal/cras_dsp_ini.c:166-193 | a port is fed by an output if and only if that is the last output in the file that names its flow |
| DspWalk.FollowFinds | audio/hal/cras_dsp_pipeline.c:164-226 | where the walk up from an input stops is its origin, or there is none |
| DspWalk.MoreFuel | audio/hal/cras_dsp_pipeline.c:164-226 | a walk that has ended stays ended, at the same place, whatever number of further steps is allowed |
| DspWalk.WalkEndsIff | audio/hal/cras_dsp_pipeline.c:164-226 | the walk up from an input ends if and only if it does not come by an input twice |
| DspSort.MatchingInput | audio/hal/cras_dsp_pipeline.c:192-221 | finds the k-th input for the k-th output of the same kind, or reports that there is none |
| DspSort.FindOriginPort | audio/hal/cras_dsp_pipeline.c:164-226 | for every walk that ends, returns the first enabled output upstream, or fails when there is none |
| DspSort.FindOutputPort | audio/hal/cras_dsp_pipeline.c:228-266 | the position of a plugin port among the outputs of its instance, or none |
| DspSort.BuildInstance | audio/hal/cras_dsp_pipeline.c:306-368 | appends an instance with all ports of the plugin in order and all connected inputs joined to their origins; fails exactly when an input has none |
| DspSort.TopologicalSort | audio/hal/cras_dsp_pipeline.c:277-371 | from a plugin with no cycle upstream, all that is added is upstream and in order, and it fails exactly when something upstream is broken |
| DspSort.SortFrom | audio/hal/cras_dsp_pipeline.c:433-438 | from a sink with no cycle upstream, succeeds exactly when no flow upstream lacks a producer and no connected input of an enabled plugin lacks an origin; the instances are then exactly the enabled plugins upstream, each once, producers first |
| DspSort.NeedsSays | audio/hal/cras_dsp_pipeline.c:293-304 | a plugin needs another if and only if some port of it, of either direction and kind, is fed by an output of the other |
| DspSort.TroubleSays | audio/hal/cras_dsp_pipeline.c:293-328 | what makes the sort fail, told by the ports: upstream of the sink a port names a flow that no output feeds, or an enabled plugin has a connected input without an origin |
| DspSort.CompiledIsForward | audio/hal/cras_dsp_pipeline.c:121-124 | every input of the sorted instances is fed by an earlier one, and with single-reader flows by one that feeds nothing else |
| DspPlay.OnlyOneWayCompiles | audio/hal/cras_dsp_pipeline.c:277-371 | only when audio flows one way among the enabled plugins upstream of the sink can there be instances of them in which every input is joined to its origin and producers come first |
| DspBuffers.CountBuffers | audio/hal/cras_dsp_pipeline.c:507-527 | the peak is the largest number of buffers needed while any instance runs |
| DspBuffers.UseBuffers | audio/hal/cras_dsp_pipeline.c:477-488 | takes the lowest free buffers; with enough of them the search stays inside the map |
| DspBuffers.UnuseBuffers | audio/hal/cras_dsp_pipeline.c:490-498 | frees exactly the buffers of the ports |
| DspBuffers.NextAssigned | audio/hal/cras_dsp_pipeline.c:544-588 | after every instance the busy buffers are exactly those of ports written and not yet read, as many as were counted |
| DspBuffers.AllocateBuffers | audio/hal/cras_dsp_pipeline.c:501-592 | for any mix of in-place and not in-place modules the counted peak suffices, nobody writes a buffer between its writer and its reader, and a reader that cannot work in place does not write it either |
| DspPeak.NeedIsPorts | audio/hal/cras_dsp_pipeline.c:507-527 | what is counted while an instance runs is the number of its own outputs and inputs and of the ports written before and read behind it |
| DspPeak.PeakIsLeast | audio/hal/cras_dsp_pipeline.c:501-592 | no allocation of buffers to the same graph in which nobody writes a buffer between its writer and its reader has fewer than the counted peak, when every output is read |
| DspRun.RunModule | audio/hal/cras_dsp_pipeline.c:781-790 | a module reads its inputs first and then writes its outputs, one that must not work in place may read in between; source and sink do nothing |
| DspRun.RunPipeline | audio/hal/cras_dsp_pipeline.c:781-790 | the buffers after the run, and what each instance saw, are those of the step-by-step run |
| DspRun.SharedRunIsPrivateRun | audio/hal/cras_dsp_pipeline.c:781-790 | with shared buffers every instance reads exactly what it would with a private buffer for each output, if nothing in front of the source writes the buffer of a source port that is read |
| DspRun.SharedIsPrivateIff | audio/hal/cras_dsp_pipeline.c:781-790 | whatever the modules compute, shared buffers give every instance its private inputs if and only if nothing in front of the source writes the buffer of a source port that is read |
| DspRun.SinkHears | audio/hal/cras_dsp_pipeline.c:774-779 | after the run the buffers of the sink hold what its producers put out |
| DspRun.EarlyWriterSpoilsSource | audio/hal/cras_dsp_pipeline.c:767-772 | an instance in front of the source that writes the buffer of a source port that is read makes its reader miss the data |
| DspDelay.MostInputDelay | audio/hal/cras_dsp_pipeline.c:624-630 | the greatest of zero and the delays of the inputs |
| DspDelay.CalculateAudioDelay | audio/hal/cras_dsp_pipeline.c:611-634 | one pass gives every instance the delay of the longest path to it |
| DspPipeline.FindEnabledBuiltin | audio/hal/cras_dsp_pipeline.c:373-399 | the one enabled plugin of a role, or none when there is none or more than one |
| DspPipeline.Create | audio/hal/cras_dsp_pipeline.c:401-464 | succeeds exactly when source and sink are unique and enabled, nothing upstream is broken, the source is upstream of the sink and has at least as many audio channels; the sink is then last, and the channel counts are those of the audio ports |
| DspPipeline.Load | audio/hal/cras_dsp_pipeline.c:594-609 | keeps graph and order; fails exactly when an instance has no module, and otherwise records the module properties and leaves safe buffers, as many as are ever in use at a time |
| DspPipeline.Instantiate | audio/hal/cras_dsp_pipeline.c:636-711 | fails exactly when a module cannot be instantiated, and otherwise gives every instance, so also the sink whose delay is reported, the delay of the longest path to it; nothing else changes |
| DspPipeline.CreateAndLoad | audio/hal/cras_dsp_pipeline.c:401-609 | from any well-formed graph with single-reader audio flows and no cycle upstream of its sink to a pipeline with safe buffers, unless a module is missing |
| DspPipeline.LoneSourceIsKept | audio/hal/cras_dsp_pipeline.c:781-790 | when every other instance has an audio input, the source runs first and nobody overwrites its data |
| DspPlay.FillSource | audio/hal/cras_dsp_pipeline.c:767-772 | every channel is in the buffer of the source port of its number |
| DspPlay.DrainSink | audio/hal/cras_dsp_pipeline.c:774-779 | every channel comes from the buffer of the sink port of its number |
| DspPlay.ValueLeaves | audio/hal/cras_dsp_pipeline.c:277-371 | what an instance puts out is what leaves the plugin it was made for, by the flows of the graph |
| DspPlay.Apply | audio/hal/cras_dsp_pipeline.c:815-863 | one chunk: unless an instance in front of the source spoils its data, the sink hears what plugins and flows say |
| DspPlay.PlayGraph | audio/hal/cras_dsp_pipeline.c:401-863 | from graph to sound: fails exactly when the pipeline cannot be created or an enabled plugin upstream of the sink has no module, and when only the source starts a flow of audio the sink hears what plugins and flows say, however instances are ordered and buffers shared |
| DspFile.ReadFile | audio/hal/cras_dsp_ini.c:93-227 | the graph has exactly the plugins and ports of the sections, with kinds, directions and joins as the entries say, and a plugin is disabled exactly when its condition can be read and is true; fails exactly on a section without library or label or with an empty port value |
| DspFile.RolesSay | audio/hal/cras_dsp_pipeline.c:373-399 | source and sink are exactly the sections of library `builtin` with that label and the purpose looked for |
| DspFile.PlayFile | audio/hal/cras_dsp_pipeline.c:268-463 | from the entries of a file and the values of its variables to sound: there is a pipeline exactly when the plugins that are not left out allow one for the purpose; its ends are then the only built-in source and sink for that purpose, and when only the source starts a flow of audio the sink hears what the sections of the file say |
| DspFile.SpeakerCondition | speakerdsp.ini:5 | a plugin with the conditions of the file of this device, for any name in place of theirs, is left out if and only if `dsp_name` is bound to something else |
| DspExample.FountainIsLoaded | audio/hal/cras_dsp_pipeline.c:401-609 | a graph whose pipeline is made and loaded and in which the source loses its data |
| DspExample.EddyNeverEnds | audio/hal/cras_dsp_pipeline.c:164-226 | a well-formed graph with one enabled source and one enabled sink, the source upstream of the sink, where a disabled plugin that feeds itself makes the walk up from the sink go on forever |
| VbnvRecords.Crc8 | recovery/updater/vboot_interface.c:391-406 | the loop computes the checksum, which is the remainder modulo x^8 + x^2 + x + 1 of the bytes, first byte first, as a polynomial times x^8 |
| VbnvRecords.ChecksumIsRemainder | recovery/updater/vboot_interface.c:391-406 | a byte is that remainder, told by a quotient and the coefficients of the product alone, if and only if it is the checksum |
| VbnvRecords.DividesIffChecksum | recovery/updater/vboot_interface.c:391-406 | data followed by a byte is divisible by the polynomial if and only if the byte is the checksum of the data |
| VbnvRecords.OrderMatters | recovery/updater/vboot_interface.c:391-406 | known checksums of three bytes and of the same bytes in the other order |
| VbnvRecords.BlankIsNotSealed | recovery/updater/vboot_interface.c:391-406 | the checksum of fifteen erased bytes is 0x03, so a written record is never taken for an erased one |
| VbnvFields.TableApart | recovery/updater/vboot_interface.c:350-389 | all flags lie inside the data bytes and no two share a bit |
| VbnvFields.FieldBits | recovery/updater/vboot_interface.c:459-463 | bit by bit: reading gives the bits of the field, writing puts the masked value there and leaves every other bit |
| Flash.FlashDevice.Write | recovery/updater/flash_device.c:102-110 | a misaligned write is refused; otherwise every cell of the range is the bitwise and of what it was and the data, and all others stay |
| Flash.FlashDevice.Erase | recovery/updater/flash_device.c:112-121 | a misaligned erase is refused; otherwise exactly the cells of the range are 0xFF |
| Vbnv.FindLastUsed | recovery/updater/vboot_interface.c:444-457 | the last record in front of the first erased one |
| Vbnv.ModifiedRecord | recovery/updater/vboot_interface.c:459-466 | the record with one field changed and a new checksum |
| Vbnv.IsOverwritable | recovery/updater/vboot_interface.c:468-479 | whether all bits of the new record can be reached by clearing |
| Vbnv.PutRecord | recovery/updater/vboot_interface.c:468-493 | writes in place, behind the last record or after an erase, leaves the rest of the flash alone, and succeeds exactly when the alignment checks pass; a refused write behind an erase leaves the section erased |
| Vbnv.ReadWrite | recovery/updater/vboot_interface.c:413-499 | error without a usable section or for an offset outside a record; otherwise the field of the newest record, or the record put |
| Vbnv.RecordIs | recovery/updater/vboot_interface.c:444-457 | the records of the section are the stretches of sixteen bytes from its offset on, in order |
| Vbnv.SetFlag | recovery/updater/vboot_interface.c:502-517 | unknown and read-only flags are refused and the flash stays as it is; for any other the record with the flag set is put, with the outcome `PutRecord` states, and the call succeeds exactly when the flash accepts it; what the record then holds is `VbnvLog.ChangedOnly` |
| VbnvExample.UsbFlagIsLost | recovery/updater/vboot_interface.c:468-493 | on a full section of two records with a write size of two records, setting one flag fails and changes another |
| Vbnv.GetFlag | recovery/updater/vboot_interface.c:519-528 | the value of the named flag in the newest record; the flash stays as it is |
| VbnvLog.SetFieldLaws | recovery/updater/vboot_interface.c:459-493 | after a set the flag reads back masked, every other flag is unchanged, used records are contiguous and the newest has a right checksum |
| VbnvLog.ChangedOnly | recovery/updater/vboot_interface.c:459-466 | setting a field leaves all other data bytes and bits, puts the masked value into the field, and makes the record divisible again |
| VbnvLog.SealedIffDivides | recovery/updater/vboot_interface.c:465-466 | a record counts as sealed if and only if its sixteen bytes are divisible by the polynomial |
| VbnvLog.AppendLaws | recovery/updater/vboot_interface.c:451-479 | the new record is the one that counts and used records stay a prefix, whether overwritten, appended or after an erase |
| VbnvLog.AppendPlaces | recovery/updater/vboot_interface.c:468-493 | for a log whose first `n` records are used: over the newest when clearing bits leads to the new record, else behind it, and else alone after an erase, which happens only when all records are used and the newest does not lead to the new one |
| VbnvLog.OverwritableIffReachable | recovery/updater/vboot_interface.c:408-411 | a record can be overwritten if and only if some write of the flash turns it into the new one |
| VbnvLog.AppendClearsBits | recovery/updater/vboot_interface.c:408-411 | without an erase every cell only loses bits |
| VbnvLog.AppendedCountsIff | recovery/updater/vboot_interface.c:446-457 | an appended record is found again exactly when what follows it is erased |
| VbnvLog.SetSameValue | recovery/updater/vboot_interface.c:459-466 | setting a flag to the value it has changes nothing when the checksum is right |
| VbnvRuns.RunIsPlain | recovery/updater/vboot_interface.c:413-517 | any run of settings leaves the flags a plain table would hold |
| VbnvRuns.LastSettingWins | recovery/updater/vboot_interface.c:502-528 | every flag reads the value last given to it, or what it was before the run |
| VbnvRuns.ErasesAreFarApart | recovery/updater/vboot_interface.c:468-479 | between two erases there are at least as many writes as the section has records, less one |
| CoredumpSegments.FilterSegments | crash_collector/coredump_writer.cc:332-360 | for every segment behind the first: no bytes if it is `PT_LOAD` and its address range is listed as mapped from a file, its old bytes otherwise, at the least aligned offset behind the segment before it, in 64-bit arithmetic; all else and the first header stay |
| CoredumpSegments.FilteredSays | crash_collector/coredump_writer.cc:337-359 | the specification function says the same of each header, with the aligned offset told as the least multiple that is not smaller |
| CoredumpSegments.AlignUpIsLeast | crash_collector/coredump_writer.cc:355-358 | rounding up never passes an aligned offset that is not smaller |
| CoredumpSegments.FilteredIsWellLaid | crash_collector/coredump_writer.cc:337-359 | ordered, disjoint, aligned segments stay so, offsets only shrink, and exactly those of type `PT_LOAD` with a listed range lose their bytes |
| CoredumpStreams.FdReader.Read | crash_collector/coredump_writer.cc:64-70 | the next bytes, whatever pieces they arrive in |
| CoredumpStreams.FdReader.CopyTo | crash_collector/coredump_writer.cc:73-89 | exactly the next bytes reach the destination for every splitting into reads; fails only on a failing call or at the end of the data |
| CoredumpStreams.FdReader.Seek | crash_collector/coredump_writer.cc:92-96 | drops data up to an offset; fails only on a failing read, at the end, or when it would have to go back |
| CoredumpWriter.ReadUntilNote | crash_collector/coredump_writer.cc:227-268 | reads headers and note, and without failing reads refuses exactly data that has none in place |
| CoredumpWriter.CopySegments | crash_collector/coredump_writer.cc:208-223 | with ordered segments the reader never has to go back and every kept segment is copied unchanged |
| CoredumpWriter.WriteDump | crash_collector/coredump_writer.cc:178-223 | the file holds the ELF header, the new program headers, the note and all kept segments |
| CoredumpWriter.RightHolds | crash_collector/coredump_writer.cc:178-223 | told on headers and listed ranges alone: the dump and the data hold the two header tables, each new header is the old one without bytes exactly when it is listed, and every kept segment has its bytes in the dump |
| CoredumpWriter.WriteCoredumpToFD | crash_collector/coredump_writer.cc:132-225 | with ordered segments the dump holds the ELF header, the program headers, the note and the bytes of every segment whose range is not listed, at the places its own headers say, and is within the size limit; short of failing calls there is a dump unless the data itself, the space on disk or the auxiliary files are a reason to refuse |
| CoredumpWriter.SizeLimitIs | crash_collector/coredump_writer.cc:164-170 | the limit is the greatest size that is at most 256 MiB and at most a twentieth of the free space |
| ExprParser.ParseOneExpr | audio/hal/cras_expr.c:369-439 | terminates on every text; result and position are those of the grammar |
| ExprParser.ReadInteger | audio/hal/cras_expr.c:391-393 | reads a signed decimal number, saturated to 64 and cut to 32 bits |
| ExprText.SpaceIs | audio/hal/cras_expr.c:371-373 | space is the blank and the five control characters from the tab to the carriage return |
| ExprText.IdentifierIs | audio/hal/cras_expr.c:356-367 | names consist of ASCII letters, the low line, the hyphen and the question mark, and nothing else |
| ExprText.SpacesSkipped | audio/hal/cras_expr.c:371-373 | spaces in front of an expression never change the result |
| ExprText.ParseNumber | audio/hal/cras_expr.c:391-393 | for every integer of any size, its decimal form reads as the low 32 bits, with their sign, of the nearest 64-bit number |
| ExprText.OpenString | audio/hal/cras_expr.c:394-409 | a string without closing quote reads as the empty string in front of all that follows |
| ExprText.ParsePrinted | audio/hal/cras_expr.c:369-439 | parsing the printed form of any well-formed expression in front of anything that goes on neither a name nor a number returns the expression and consumes exactly its text |
| ExprText.ParseAllPrinted | audio/hal/cras_expr.c:411-429 | the same for the parts of a compound expression, in front of any rest that is no part |
| ExprText.StrayMark | audio/hal/cras_expr.c:378-389 | for any well-formed parts and any rest that does not make the mark a boolean, a list with a stray mark behind its parts is accepted without it if and only if the closing parenthesis follows at once, and refused otherwise |
| ExprText.OpenList | audio/hal/cras_expr.c:411-429 | a list that is not closed is refused, and the whole text is gone |
| ExprText.NothingStarts | audio/hal/cras_expr.c:431-439 | text that starts with any other character is refused where it stands |
| ExprEval.FunctionNot | audio/hal/cras_expr.c:127-143 | the negation of its one operand, nothing for any other number of operands |
| ExprEval.FunctionAnd | audio/hal/cras_expr.c:145-171 | false exactly when an operand is false, else the last operand |
| ExprEval.FunctionOr | audio/hal/cras_expr.c:173-190 | the first operand that is not false, false when there is none |
| ExprEval.FunctionEqual | audio/hal/cras_expr.c:192-236 | true exactly when all operands are equal |
| ExprEval.DeMorgan | audio/hal/cras_expr.c:145-190 | `and` of expressions is false exactly when `or` of their negations is not |
| ExprEval.Env.FindValue | audio/hal/cras_expr.c:95-106 | the value bound to a name, or none |
| ExprEval.Env.SetVariable | audio/hal/cras_expr.c:118-125 | binds one name and leaves all others |
| ExprEval.Env.InstallBuiltins | audio/hal/cras_expr.c:245-263 | binds the four functions and leaves all other names |
| ExprEval.Env.EvalExpression | audio/hal/cras_expr.c:476-531 | the value the definition of the language gives |
| ExprEval.EvalSays | audio/hal/cras_expr.c:476-531 | literals are themselves, a variable is what it is bound to or nothing, and a compound whose first part is no function is nothing |
| ExprEval.Env.IsDisabled | audio/hal/cras_dsp_pipeline.c:268-275 | a plugin is left out exactly when its condition can be read and evaluates to true |
| Dictionaries.DictionaryHash | audio/hal/dictionary.c:88-104 | the loop computes the hash function |
| Dictionaries.KnownHashes | audio/hal/dictionary.c:88-104 | known hashes of one-character and two-character keys, which tell the order of the characters |
| Dictionaries.Dictionary.Get | audio/hal/dictionary.c:175-193 | the value bound to the key, or the default |
| Dictionaries.Dictionary.Set | audio/hal/dictionary.c:221-275 | binds one key and leaves all others, through growth and wrapping; while nothing was removed, keys stay in the order of their first setting |
| Dictionaries.Dictionary.Unset | audio/hal/dictionary.c:288-323 | removes one key and leaves all others |
| Dictionaries.Dictionary.Grow | audio/hal/dictionary.c:251-265 | twice the storage with the same content |
| Dictionaries.Dictionary.FreeSlotFrom | audio/hal/dictionary.c:267-270 | the wrapping search ends at a free slot, and at slot `n` itself when that is free |
| Dictionaries.MemDouble | audio/hal/dictionary.c:38-49 | a copy with as many zeros behind it |

## Left out

- DRM ioctls, frame commit, OpenGL, gralloc, shaders and sw_sync calls; of the timeline only the counters, and of a signal whether it succeeds.
- Threads, workers and queues: a frame is planned in one step.
- `SquashFrame` and the hardware composition of squashed regions: the picture theorem stops at their border.
- The kind of request a composition holds (`type_`), disabled planes and display modes.
- The separation of floating-point rectangles; the integer one is the same template. Coordinates and areas are unbounded integers, so overflow of a 32-bit area is not modelled, and neither is the order in which finished rectangles are output.
- SeparateRects.FinishUnseen: finished bands are taken in any order, not in the order of the map.
- Planner.ProvisionPlanes: source sizes are real numbers, so rounding of the scale factors is not modelled.
- DisplayComposition.DrmDisplayComposition.Plan: with a squash state and unchanged geometry it asks for the geometry the state was set up with and for at most 64 layers, as the layer bit sets do. When a shift of the separation is undefined, or its count of excluded rectangles would be cut below zero, nothing is said about picture and fences.
- The outputs' back pointers to their readers: nothing in the pipeline reads them.
- DspSort.TopologicalSort: asks that no plugin upstream of the sink is upstream of itself, which the code does not check. On other graphs the search for an origin may not end (`DspExample.EddyNeverEnds`), and where audio goes round among enabled plugins there is no right order (`DspPlay.OnlyOneWayCompiles`); where a circle is closed only by control ports or across a disabled plugin, the result depends on the order of the ports and is not modelled.
- DspRun.RunModule: an in-place module is taken to read all inputs of a block before it writes; audio samples are values of any type, modules keep no state, and blocks are not divided. Built-in plugins of an unknown label, whose modules do nothing, are not told apart from others.
- DspPipeline.Create: library, label and purpose of a plugin are summed up in its role, which `DspFile.RoleOf` reads off the file.
- DspFile.PlayFile: conditions are evaluated once, when the file is read, and not at each visit of a plugin; no variable changes in between.
- DspPlay.Apply: the audio ports of source and sink are their first ports, as the lookup of a channel by its port number demands; a graph with two readers of one audio flow is not played.
- Control values, connection of modules, statistics, and the interleaving of samples with unequal channel counts.
- The scanning of ini text into entries; key lengths are not limited.
- Expression values are copied, not owned: allocation and freeing are not modelled; `strtol` skips no space because the parser has done so.
- ExprParser.ReadInteger: `long` has 64 bits (`ExprText.Saturated`), as in the arm64 build; in the 32-bit build of BoardConfig.mk:28-33 numbers saturate at 32 bits.
- Dictionaries.DictionaryHash: `char` is signed (`Dictionaries.Widened`); in the arm and arm64 builds of BoardConfig.mk:22-33 it is unsigned, which changes the hash of keys outside ASCII and nothing the table promises.
- Dictionaries.Dictionary.Set: allocation does not fail; a null dictionary is not modelled.
- The search for the flash map and its section; failing flash operations other than misalignment.
- CoredumpWriter.WriteCoredumpToFD: the layout of ELF headers and of the FILE note are parameters; of the auxiliary vector and maps files there is only whether they could be written, and deleting a failed dump is left to the caller.
- The firmware updater around the flags, Bluetooth, sensors, power, light, health and the other device tables of the tree.
