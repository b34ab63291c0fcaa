# QPov, verified in parts

QPov turns recordings of Quake games ("demos") into films. A converter decodes a demo and writes a scene for every
frame of the film. A scheduler hands the scenes out to render clients as leases, a client keeps its lease alive while it
renders, and the results go to cloud storage. The level is turned into meshes once, and statistics are kept of all the
rendering.

This project models the parts of QPov in which a mistake would be easiest to make and hardest to see, and proves what
they are for. `dafny verify dfyconfig.toml` checks all of it.

| files | what they model |
|---|---|
| `Tables`, `GetQuery`, `OrdersQuery` | the scheduler's tables, and its two queries as relational operators |
| `Chains`, `LeaseMachine`, `LeaseRuns`, `Uploads` | the scheduler as a state machine whose steps are single statements, uploads and clock ticks, with any number of `Done` calls under way; what all its runs keep |
| `Interference`, `Scheduler` | the RPC handlers as methods that edit the tables in place, with other handlers' interference between their steps; each step is one of the state machine |
| `ObjectPaths`, `ObjectDirs` | object names in cloud storage, and whose directory they are in |
| `Refresh`, `LeaseKeeping`, `ClientTurns` | the client's keep-alive loop, alone and together with the scheduler |
| `Bytes`, `DemoMessages`, `DemoCodec`, `WireFormat`, `DemoErrors`, `DemoBlock` | the message decoder: as a function, against a reference encoder, on messages that are cut off, and as a class that consumes its buffer |
| `Interpolation`, `FrameGrid`, `DemoScene`, `DemoRun`, `FrameContents`, `DemoAngles`, `DemoState` | the converter: as a function over scenes, with what its whole runs produce and its frames show, and as classes that share and edit state |
| `Shares`, `BspFaces`, `BspMesh`, `BspOutline` | faces of a level to triangles, and triangles to compact meshes |
| `Merge`, `RunningSums`, `DayCounts` | the statistics: merging time series, running sums over jobs, counts per day |

What is imperative in the source is a class or a method with loops here. It is proved equal to a function, or against a
predicate that says what it is for, and the lemmas are about those.

Times are nanoseconds (scheduler and client), reals (demos), milliseconds (statistics). Coordinates, angles and texture
coordinates are reals.

## What turned out not to hold

Some things that one would like to be true of the code are not. Each has the exact condition under which it is, and an
input for which it is not.

- Two clients can hold a lease on one order, because a renewal does not look at the expiry and revives a lease after its
  order has gone to somebody else. `LeaseRuns.LateRenewalBreaksExclusion` shows a run; `LeaseRuns.ExclusiveIff` says that
  nothing else breaks exclusion.
- A client that waits for the answer to a renewal does not notice that its lease expires, so another client can be given
  its order before it falls back. `LeaseKeeping.SlowAnswerLosesOrder` shows a history; by `LeaseKeeping.NoSecondLease` it
  takes an answer that is slower than the time that the renewal granted.
- `Done` answers OK although its last statement may have changed nothing, when the lease was declared failed in between.
  `Uploads.OkAlthoughFailed` reaches such a state, `Uploads.CommitOutcome` has the condition.
- A result is stored under a name that `Result` does not look for unless the order's file ends in `.pov` or has no
  extension. `ObjectPaths.IncFilesAreLost`, `ObjectPaths.ResultReadsWhatDoneWrote`.
- Two leases can have one image between them, since nothing checks an order's file: with ".." elements it can lead out of
  the lease's directory, and `Done` does not upload what is there already. `ObjectDirs.ClimbingFilesCollide`. Another
  lease whose file does not lead out can have a lease's image iff the image's name is in that other lease's directory,
  `ObjectDirs.SharedNameIff`, so not if neither file leads out, `Uploads.ResultsAreApart`.
- `Get` and `Orders` disagree about a lease that expires at this very instant. `OrdersQuery.ExpiringNow`,
  `OrdersQuery.UnstartedVersusEligible`.
- The comments in `generateFrame` speak of snapping the camera, but the position that is set for that is overwritten
  unless the camera's entity changes its model. `DemoRun.FastCameraGlides`, `DemoRun.CameraPositionJumpsIff`.
- Interpolated angles take the short way round only if the two angles, made positive by one turn, are at most one and a
  half turns apart. `Interpolation.LongWayRound`, `Interpolation.FollowsArc`. Throughout a demo whose block headers have
  angles in [-180, 180] they are. `DemoAngles.FramesTurnShortWay`.
- A face that no model has is drawn by all models, and one that several have by none. `BspFaces.UncoveredIsDrawnTwice`,
  `BspFaces.SharedIsNotDrawn`, `BspFaces.WhoDraws`.
- A face with a ledge 0 makes the mesh of the whole level empty, without an error. `BspFaces.LedgeZeroFails`,
  `BspMesh.PovTriangleMesh`.
- The merge crashes on an empty series if another has two points in the past. `Merge.EmptySeriesCrashes`, `Merge.Flip`.
  The statistics never merge such series. `RunningSums.LinesAreMergeable`, `Merge.AloneIsSafe`.
- The count of frames per day crashes when all jobs were over before the last of several days began, and when there are
  no jobs. `DayCounts.QuietDaysCrash`, `DayCounts.CrashesIff`. It counts too many on its first day if something came back
  before that day began, but that day is the last of 1969. `DayCounts.EarlyReturnIsCounted`, `DayCounts.CountsAreRight`.

## Model

| member | source | states |
|---|---|---|
| GetQuery.QueryIsRule | cmd/dscheduler/dscheduler.go:396-421 | the nested aggregate query gives exactly the answers of a rule about the tables alone: nothing iff every order has a lease that is done or has not expired; else an eligible order whose batch was created no later than that of any other eligible order, orders without a known batch last, and which within its batch is a beginning of any other order or less where they first differ |
| GetQuery.OneRowPerOrder | cmd/dscheduler/dscheduler.go:404-412 | the outer joins of the query neither drop nor duplicate an order |
| GetQuery.QueryFindsWork | cmd/dscheduler/dscheduler.go:396-424 | there is an answer iff some order is eligible |
| GetQuery.NotHandedOut | cmd/dscheduler/dscheduler.go:412-413 | an order with a done lease, or with one that has not expired, failed or not, is not handed out |
| OrdersQuery.JoinsMultiply | cmd/dscheduler/dscheduler.go:873-904 | with a active and d done leases the joins make the counts a * max(d, 1) and d * max(a, 1) |
| OrdersQuery.ListedByTrueCounts | cmd/dscheduler/dscheduler.go:862-908 | an order is listed iff its true counts satisfy the flags, whatever the joins did to the reported ones |
| OrdersQuery.WhatIsListed | cmd/dscheduler/dscheduler.go:862-908 | for any flags, an order is listed iff active is asked for and it has a lease that is not done and expires later, or done is and it has a done lease, or unstarted is and it has neither; its entry has its batch, and the two numbers of leases, each multiplied by the other unless that is 0 |
| OrdersQuery.ListedOnce | cmd/dscheduler/dscheduler.go:862-908 | no order is listed twice, and with all three flags every order is listed |
| OrdersQuery.UnstartedMeans | cmd/dscheduler/dscheduler.go:869-871 | listed as unstarted iff no lease of the order is done and none expires later than now |
| OrdersQuery.UnstartedVersusEligible | cmd/dscheduler/dscheduler.go:412-413 | every order that Get could hand out is listed as unstarted, and a listed one can be handed out iff none of its leases expires at this instant |
| OrdersQuery.ExpiringNow | cmd/dscheduler/dscheduler.go:880-886 | a database whose one order is listed as unstarted but cannot be handed out |
| LeaseRuns.StepOnLease | cmd/dscheduler/dscheduler.go:487-556 | what one step of any call can do to a lease: order and creation stay, a closed lease stays as it is, only a renewal moves the expiry, only Failed and the last step of Done close it |
| LeaseRuns.StepOnRow | cmd/dscheduler/dscheduler.go:434-556 | and the whole row it leaves: a new one with the default expiry; the new expiry and time of a renewal, with no more seconds than may be granted; failed and the time; done, the time and the statistics of the call; anything else, and any closed lease, unchanged |
| LeaseRuns.NeverBoth | cmd/dscheduler/dscheduler.go:539-546 | in no interleaving is a lease both done and failed |
| LeaseRuns.LeasePersists | cmd/dscheduler/dscheduler.go:499-509 | over any stretch of any run a lease keeps its order and creation time, and once closed its whole row |
| LeaseRuns.ClosedOnceAndForGood | cmd/dscheduler/dscheduler.go:740-751 | a lease is closed at most once, either done or failed, and its row with expiry and metadata is frozen from then on |
| LeaseRuns.ClosedLeaseRecords | cmd/dscheduler/dscheduler.go:738-751 | in every run a done lease carries the statistics of a Done request for it, whose last statement found it open, and the time of that statement; a failed lease the time at which it was declared failed while open; and no other lease carries statistics |
| LeaseRuns.FinishedForGood | cmd/dscheduler/dscheduler.go:738-751 | and such a statement decides what the lease is in the rest of the run |
| LeaseRuns.DoneOrdersStayDone | cmd/dscheduler/dscheduler.go:412-413 | after a lease is done no later Get hands out its order |
| LeaseRuns.ExclusiveStep | cmd/dscheduler/dscheduler.go:498-509 | a step ends exclusion iff it renews an expired lease whose order is held by another live lease |
| LeaseRuns.ExclusiveIff | cmd/dscheduler/dscheduler.go:396-447 | in a run from the start no order ever has two live leases iff no such renewal happens in it |
| LeaseRuns.TimelyRenewalsAreSafe | cmd/dscheduler/dscheduler.go:498-509 | if every renewal lands before the expiry, no order ever has two live leases |
| LeaseRuns.TwoLiveLeases | cmd/dscheduler/dscheduler.go:498-509 | if an order has two live leases, one of these two was renewed after it had expired |
| LeaseRuns.LifetimesDisjoint | cmd/dscheduler/dscheduler.go:434-447 | of two leases on an order, neither of them revived, one had expired before the other was issued |
| LeaseRuns.LateRenewalBreaksExclusion | cmd/dscheduler/dscheduler.go:498-509 | a run of four steps after which two leases on one order are live |
| LeaseRuns.ForeignKeysAlways | cmd/dscheduler/schema.sql:192-208 | in no run does a lease refer to a missing order, or an order to a missing batch |
| Uploads.KnowledgeIsStable | cmd/dscheduler/dscheduler.go:691-759 | what a Done call has found out at each of its points is not made false by any step of another call |
| Uploads.InvStep | cmd/dscheduler/dscheduler.go:588-668 | every step keeps: a done lease has both objects, and each Done call's knowledge is true |
| Uploads.DoneMeansStored | cmd/dscheduler/dscheduler.go:730-751 | in every reachable state a done lease has its image and its metadata stored, under the names made from its order's batch and file and the lease; and for a .pov file the image is where Result looks |
| Uploads.UploadNames | cmd/dscheduler/dscheduler.go:588-625 | in every reachable state a call that uploads writes the image under the image's name and the metadata under the metadata's |
| Uploads.ClientMayStop | cmd/drender/drender.go:461-470 | when a Done attempt ends in success for the client, whose wrapper (pkg/dist/rpcclient/rpc.go:75-88) takes "already exists" for it, the lease is closed now and ever after, and its results are stored unless it was declared failed; after a plain OK they are stored in any case |
| Uploads.StoredForGood | cmd/dscheduler/dscheduler.go:600-668 | stored results stay stored under the same names |
| Uploads.CommitOutcome | cmd/dscheduler/dscheduler.go:738-751 | after the last statement of Done the lease is closed, and done iff it had not been declared failed before |
| Uploads.OkAlthoughFailed | cmd/dscheduler/dscheduler.go:738-759 | a reachable state in which Done has answered OK and the lease is failed and not done |
| Uploads.ResultsAreApart | cmd/dscheduler/dscheduler.go:588-635 | two leases need four different objects if neither order's file leads out of its directory |
| ObjectPaths.ResultReadsWhatDoneWrote | cmd/dscheduler/dscheduler.go:729-735 | the name that Done writes is the one that Result reads iff the file's extension is .pov or empty |
| ObjectPaths.PovFilesAreFound | cmd/dscheduler/dscheduler.go:821-824 | they are the same for every file name that ends in .pov |
| ObjectPaths.IncFilesAreLost | cmd/dscheduler/dscheduler.go:821-824 | a file name for which they differ |
| ObjectPaths.LastOfObjectName | cmd/dscheduler/dscheduler.go:588-625 | after path clean-up the last element of an object's name is that of the file, with the suffix |
| ObjectPaths.CleanLeadsThere | cmd/dscheduler/dscheduler.go:588-625 | path clean-up, which path.Join does: the cleaned name leads from every directory to where the name itself leads, and has no "." or empty element, nor a ".." after another element |
| ObjectPaths.SplitIsInverse | cmd/dscheduler/dscheduler.go:588-625 | the elements of a name are what is between its slashes |
| ObjectPaths.PngIsNotMeta | cmd/dscheduler/dscheduler.go:602-625 | an image never has the name of metadata, whatever the leases and files |
| ObjectDirs.InOwnDirectory | cmd/dscheduler/dscheduler.go:588-606 | the objects of a file that does not lead out are in the directory of their lease |
| ObjectDirs.PlainObjects | cmd/dscheduler/dscheduler.go:588-625 | the results of name.pov are batch/B/L/name.png and batch/B/L/name.meta.pb.gz, or single/L/name.png and single/L/name.meta.pb.gz without a batch |
| ObjectDirs.NamesDiffer | cmd/dscheduler/dscheduler.go:588-606 | so two leases with such files have no object in common |
| ObjectDirs.PlainFilesStay | cmd/dscheduler/dscheduler.go:729 | a file without an element ".." does not lead out |
| ObjectDirs.SharedNameIff | cmd/dscheduler/dscheduler.go:588-606 | another lease with such a file can have the image of this one iff its name is in the other's directory |
| ObjectDirs.ClimbingFilesCollide | cmd/dscheduler/dscheduler.go:600-609 | two leases with different files and the same image |
| Interference.RunsKeepRely | cmd/dscheduler/dscheduler.go:384-759 | every stretch of every run of the state machine is interference that the handlers put up with |
| Interference.ThreadKeepsRely | cmd/dscheduler/dscheduler.go:691-759 | and so is a whole handler to the others |
| SchedulerRpcs.AddedOrderWaits | cmd/dscheduler/dscheduler.go:1229-1246 | a new order can be handed out and is listed as unstarted, and whether any other order can be handed out stays as it was |
| SchedulerRpcs.Scheduler.Add | cmd/dscheduler/dscheduler.go:1211-1255 | refused iff the batch is unknown; else the order waits to be handed out and is listed as unstarted, other orders are not affected, and the foreign keys hold |
| SchedulerRpcs.Scheduler.Get | cmd/dscheduler/dscheduler.go:384-459 | replies with nothing iff no order is eligible, and then changes nothing; else the order is first in line and just a new lease on it is added: open, created and updated now, with the default expiry and no metadata |
| SchedulerRpcs.Scheduler.RenewLease | cmd/dscheduler/dscheduler.go:487-513 | an open lease gets an expiry as many seconds from now as may be granted, and the time; nothing else is changed |
| LeaseMachine.GrantedMay | cmd/dscheduler/dscheduler.go:487-497 | what is granted: the seconds asked for, or the default if they are not positive, capped by the longest renewal, and then raised to the shortest, each flag in whole seconds cut off towards zero |
| SchedulerRpcs.Scheduler.Renew | cmd/dscheduler/dscheduler.go:515-533 | an open lease gets a new expiry, as many seconds from now as may be granted, whether or not it had expired; the reply is that expiry in whole seconds, cut off towards zero |
| SchedulerRpcs.Scheduler.Failed | cmd/dscheduler/dscheduler.go:535-556 | an open lease becomes failed, with the time, a closed or unknown one is left alone |
| SchedulerRpcs.Scheduler.UploadStep | cmd/dscheduler/dscheduler.go:600-621 | one step of an upload adds at most its object, moves on, and ends in success only if the object is there, in spite of the race between looking and writing |
| SchedulerRpcs.Scheduler.SaveToCloud | cmd/dscheduler/dscheduler.go:588-668 | however the steps of the two uploads and of other handlers alternate, each is one that the state machine takes, and no error means that both objects are there |
| SchedulerRpcs.Scheduler.MarkDone | cmd/dscheduler/dscheduler.go:738-751 | an open lease becomes done, with the statistics as its metadata and the time, and nothing else in its row or in any other changes; a closed one is left alone, and the reply is the same |
| SchedulerRpcs.Scheduler.Prepare | cmd/dscheduler/dscheduler.go:691-729 | its steps are the state machine's; it goes on only with a known file and the names derived from it; "already exists" means closed, and closed is always answered with it |
| SchedulerRpcs.Scheduler.Done | cmd/dscheduler/dscheduler.go:691-759 | every execution is a sequence of Done steps that the state machine can take, each leading to just what the machine says, with other handlers between any two; OK means that both objects are stored and that the lease, if the last statement found it open, is done with the statistics and the time of that statement, and is as it was otherwise; "already exists" means closed, a closed lease is always answered with it, and no closed lease changes; a failed look at the lease is an internal error |
| Refresh.Run | cmd/drender/drender.go:375-398 | turn by turn: the loop sleeps half of what is left until its deadline; a success that is not yet over brings its deadline, a failure before the deadline leaves it; otherwise the deadline is the fallback from now |
| Refresh.LogTurns | cmd/drender/drender.go:377-396 | the same of any run of the loop, so also of the client's part in a history with the scheduler |
| Refresh.FewAttempts | cmd/drender/drender.go:377-396 | with renewals failing and R ticks left, the fallback comes within floor(log2(R + 1)) + 1 attempts |
| Refresh.NotFewer | cmd/drender/drender.go:377-396 | that bound is reached, for every R |
| Refresh.Log2IsFloor | cmd/drender/drender.go:377-396 | the bound's logarithm is the floor of the real one |
| LeaseKeeping.ClientKeepsItsLease | cmd/drender/drender.go:375-398 | for renewals that arrive in time and answers that take any time: until the first fallback the client's deadline is never later than the scheduler's, its lease is open, and each of its renewals arrives while it is live; it is live at all times but, while an answer is on its way, those past its expiry, which is at least the granted time after the renewal |
| LeaseKeeping.NoSecondLease | cmd/drender/drender.go:414-442 | and as long as no answer takes longer than the time granted, no other lease is issued for its order |
| LeaseKeeping.AnswerMeans | cmd/drender/drender.go:385-394 | an answer makes the client fall back iff it is a success heard after the new expiry in whole seconds, or a failure heard after the deadline; else a success makes that expiry the deadline and a failure leaves it, and the timer is set half-way |
| LeaseKeeping.FallsBackIff | cmd/drender/drender.go:375-398 | over whole histories of any number of turns, the client has fallen back iff some answer was heard too late |
| LeaseKeeping.PunctualClient | cmd/drender/drender.go:375-398 | a client whose renewals all succeed and are heard of in time never falls back, however many turns it takes; its lease is open and live, and nobody else is given its order |
| LeaseKeeping.SlowAnswerLosesOrder | cmd/drender/drender.go:385-394 | a history in which an answer does, and the order is handed out again before the client falls back |
| LeaseKeeping.HistoryIsRun | cmd/dscheduler/dscheduler.go:515-533 | the history of client and scheduler together is a run of the scheduler |
| ClientTurns.HistoryIsLog | cmd/drender/drender.go:375-398 | and the client's part of it is a run of the keep-alive loop, turn by turn |
| ClientTurns.FailingClient | cmd/drender/drender.go:377-396 | a client whose renewals all fail has taken at most floor(log2(refresh time + 1)) turns as long as it has not fallen back, still has its lease then, and, unless a failure took longer to be told than the time granted, nobody else has been given its order |
| LeaseKeeping.KeptAtFirst | cmd/drender/drender.go:414-426 | it holds at first if Get, after 1970, took no longer than the default lease less the refresh time |
| Bytes.ReadsString | pkg/dem/dem.go:178-190 | reading a terminated string gives it back and leaves what follows |
| Bytes.ReadsInt16 | pkg/dem/dem.go:294-300 | the same for signed numbers of two bytes |
| Bytes.ReadsUint32 | pkg/dem/dem.go:265-271 | the same for numbers of four bytes |
| DemoCodec.Decode | pkg/dem/dem.go:557-1029 | a decoded message used up at least one byte |
| WireFormat.RoundTrip | pkg/dem/dem.go:557-1029 | decoding inverts a reference encoder with a format and numbers of its own, for every well-formed message of every type, and leaves exactly the bytes that follow |
| WireFormat.UpdateRoundTrip | pkg/dem/dem.go:946-1026 | the same for updates: each of the twelve fields that are present is sent, in its place and with its bit of the mask, after a second mask byte and a long entity number or without |
| WireFormat.UpdateFlagsMean | pkg/dem/dem.go:65-79 | the bits in which the decoder looks for the fields are those that the format gives them |
| WireFormat.MaskRoundTrip | pkg/dem/dem.go:946-960 | the mask comes back from its one or two bytes |
| WireFormat.SoundRoundTrip | pkg/dem/dem.go:579-629 | the same for sounds, with or without volume and attenuation, and any packed entity and channel |
| WireFormat.ServerInfoRoundTrip | pkg/dem/dem.go:192-243 | the same for the server's lists of names, which end at an empty one |
| WireFormat.BaselineRoundTrip | pkg/dem/dem.go:869-884 | the same for baselines |
| WireFormat.ClientDataRoundTrip | pkg/dem/dem.go:724-831 | client data is skipped by exactly the bytes of the fields that are sent, those that may be absent and those that are always there |
| WireFormat.ClientFlagsMean | pkg/dem/dem.go:48-63 | and the same for the flags of the client data |
| WireFormat.FloatIsValue | pkg/dem/dem.go:278-284 | times are read as the IEEE 754 numbers that are sent: sign, biased exponent, fraction, subnormal numbers included |
| WireFormat.TempEntityRoundTrip | pkg/dem/dem.go:886-917 | temporary entities are skipped by exactly the bytes of the fields of their kind |
| WireFormat.BlockRoundTrip | pkg/dem/dem.go:543-555 | a block of encodings decodes to just those messages in order |
| WireFormat.EncodeAppends | pkg/dem/dem.go:543-555 | what follows a message does not change its bytes |
| DemoErrors.CutOffFails | pkg/dem/dem.go:579-831 | a message whose reads are checked, from sound to client data, is an error when it is cut off anywhere after its type, and ends the program if it is the server's description of itself |
| DemoErrors.UnknownTypeFails | pkg/dem/dem.go:947-952 | types that no message has are errors |
| DemoErrors.UnknownVersionDies | pkg/dem/dem.go:198-200 | a server of an unknown version ends the program |
| DemoErrors.BrokenBlock | pkg/dem/dem.go:543-555 | a block that breaks somewhere breaks, however many good messages come before |
| DemoBlock.Block.DecodeMessage | pkg/dem/dem.go:557-1029 | consuming the buffer step by step gives the result and leaves the rest that the decoder function says |
| DemoBlock.Block.DecodeUpdateMessage | pkg/dem/dem.go:946-1026 | the same for updates, field by field |
| DemoBlock.Block.DecodeSoundMessage | pkg/dem/dem.go:579-629 | the same for sounds |
| DemoBlock.Block.DecodeClientDataMessage | pkg/dem/dem.go:724-831 | the reads that are thrown away take as many bytes as the flags announce |
| DemoBlock.Block.Messages | pkg/dem/dem.go:543-555 | the loop terminates, and its messages are those of the decoder function applied to the whole block |
| Interpolation.MixIsBetween | cmd/dem/dem_main.go:267-273 | an interpolated coordinate lies between its ends |
| Interpolation.WrapInPlace | cmd/dem/dem_main.go:311-321 | the normalisation loop terminates at an angle of at most 180 that differs by full turns |
| Interpolation.ComputeAngle | cmd/dem/dem_main.go:295-323 | the source's loops compute the function that the next rows, and for each coordinate FrameContents.FrameIsBetween, are about |
| Interpolation.FollowsArc | cmd/dem/dem_main.go:282-323 | angles of any size move along one arc from the old direction to the new one; the arc is at most half a turn iff the angles made positive are at most 540 degrees apart |
| Interpolation.LongWayRound | cmd/dem/dem_main.go:282-293 | two angles for which the arc is longer |
| Interpolation.ShortWayRound | cmd/dem/dem_main.go:275-323 | for angles in [-180, 180] the arc is at most half a turn and the result in (-180, 180] |
| FrameGrid.GenTimeFrames | cmd/dem/dem_main.go:104-118 | the frames are the grid points from number ceil(from * fps) up to, without, ceil(to * fps) |
| FrameGrid.GridIsComplete | cmd/dem/dem_main.go:104-118 | a time is among them iff it is in [from, to) and a multiple of the frame time |
| FrameGrid.Fraction | cmd/dem/dem_main.go:230-236 | a time in [from, to) is a fraction in [0, 1) of the way |
| DemoRun.FrameGridOverDemo | cmd/dem/dem_main.go:154-249 | however time is cut into blocks, even if it runs backwards, the frames are numbers 0 to ceil(M * fps) - ceil(t0 * fps) - 1, frame j at grid point ceil(t0 * fps) + j |
| DemoRun.GridInvariant | cmd/dem/dem_main.go:217-248 | after every block the snapshot's time leads on from the last frame, also if blocks emitted nothing |
| DemoRun.SeenSinceSnapshot | cmd/dem/dem_main.go:244-248 | the seen map has exactly the entities updated since the last snapshot |
| DemoRun.VisibleIffUpdated | cmd/dem/dem_main.go:219-222 | an entity is marked visible iff it is the world or was updated since the last snapshot |
| DemoRun.FrameTime | cmd/dem/dem_main.go:230-240 | every frame's time is in [old, new), so its parameter is in [0, 1) |
| DemoRun.FrameShows | cmd/dem/dem_main.go:387-418 | in an emitted frame an entity that keeps its model is between its old and new place, and as visible as at the end of the block |
| DemoRun.VisibleInFrame | cmd/dem/dem_main.go:219-248 | it is visible in the frame iff it is the world or was updated since the last snapshot |
| DemoRun.FrameIsOutput | cmd/dem/dem_main.go:230-241 | those frames are the ones that a block adds to the output, at their places |
| FrameContents.FrameIsBetween | cmd/dem/dem_main.go:352-418 | a frame has the next number and is written iff the server has named its models; it then has each entity that keeps its model at its fraction of the way from old to new place, each of its angles at that fraction of its own arc, what does not turn at its own angle, the looks of the nearer state, and any other entity as in the nearer state; the camera turns alike, unless it moved by more than 50 or turned by more than 45 degrees, when it is as in the nearer state |
| FrameContents.Remembers | cmd/dem/dem_main.go:154-249 | what a block leaves behind: no time, no snapshot; with a time, a snapshot of everything but the sounds if there is none yet or frames come out, after which nothing is seen |
| FrameContents.LastUpdateStays | cmd/dem/dem_main.go:169-182 | messages take effect in order: the last one about an entity, if it is an update, decides field by field how it ends |
| FrameContents.HeaderTurnsCamera | cmd/dem/dem_main.go:165-167 | the block's header turns the camera unless the game is over or a message turns it |
| DemoRun.CameraPositionJumpsIff | cmd/dem/dem_main.go:373-399 | with a fast camera the direction jumps; the position does iff the camera entity changed its model, did not move, or the frame is at the start |
| DemoRun.FastCameraGlides | cmd/dem/dem_main.go:373-399 | a demo of two blocks in which the camera is too fast and yet, in a frame that is written, does not jump |
| DemoAngles.AllDecodedTurn | pkg/dem/dem.go:273-276 | all angles in the messages of any block are in [-180, 180] |
| DemoAngles.RunTurns | cmd/dem/dem_main.go:154-249 | if those in the headers are too, all angles of entities and cameras are at all times |
| DemoAngles.FramesTurnShortWay | cmd/dem/dem_main.go:295-323 | and in every written frame each entity that keeps its model, and a camera that is not too fast, turns on an arc of at most half a turn, to an angle in (-180, 180] |
| DemoState.State.Copy | pkg/dem/dem.go:331-346 | a copy has its own entities and the same seen map, and the same contents but for the sounds |
| DemoState.State.ApplyUpdate | pkg/dem/dem.go:410-461 | the entity is seen; of position, angles and model each is set if present and kept if not; frame, skin and color are set if present, else 0 with a new model, else kept; no other entity changes |
| DemoState.State.Apply | pkg/dem/dem.go:356-536 | every message changes the state as its value model says, and never makes it refer to other entities or another map |
| DemoScene.AppliedMeans | pkg/dem/dem.go:356-536 | field by field, which messages write to it and what, with all other fields and entities kept |
| DemoState.State.MarkVisible | cmd/dem/dem_main.go:219-222 | visible iff seen, and the world always |
| DemoState.TweenInPlace | cmd/dem/dem_main.go:387-418 | one entity becomes the mixture of its two states or the nearer of them, and no other changes |
| DemoState.GenerateFrame | cmd/dem/dem_main.go:352-431 | the frame is that of the value model, and of neither state anything but the loaded level, which is not part of this model, is touched |
| DemoState.ApplyBlock | cmd/dem/dem_main.go:166-215 | snapshot isolation: whatever the messages of a block do, the old state stays what it was, entities and seen map included |
| DemoState.ConvertBlock | cmd/dem/dem_main.go:154-249 | after a snapshot is taken, old and new state share neither entities nor seen map |
| DemoState.Convert | cmd/dem/dem_main.go:154-249 | the frames that come out of the shared, mutable states are those of the value model |
| Shares.Conservation | pkg/bsp/bsp.go:351-364 | handing parts to owners neither loses nor makes up anything |
| BspFaces.FanBoundary | pkg/bsp/bsp.go:387-394 | the edges of a fan, with opposite ones cancelled, are the closed path through its corners |
| BspFaces.OutlineIsKept | pkg/bsp/bsp.go:371-394 | for a face whose signed ledges form a loop, the fan's uncancelled directed edges are exactly the ledges', and it has max(n - 2, 0) triangles |
| BspFaces.WhoDraws | pkg/bsp/bsp.go:352-365 | a model is drawn with a face iff its texture is not named trigger and the face is in no model, or in this one alone |
| BspFaces.CoversOwnFaces | pkg/bsp/bsp.go:353-354 | a model has the faces from its first one on, as many as it says, and none if the sum does not fit 32 bits |
| BspFaces.DrawnOnce | pkg/bsp/bsp.go:352-365 | a face is drawn exactly once iff exactly one model has it, or none of just one |
| BspFaces.UncoveredIsDrawnTwice | pkg/bsp/bsp.go:352-365 | a level with a face in neither of two models, both of which are drawn with it |
| BspFaces.SharedIsNotDrawn | pkg/bsp/bsp.go:352-365 | a level with a face in both of two models, neither of which is drawn with it |
| BspFaces.LedgeZeroFails | pkg/bsp/bsp.go:373-376 | a level with a good first model and a second one that fails |
| BspFaces.LevelIsConserved | pkg/bsp/bsp.go:351-397 | over all models, every triangle occurs as often as its faces have drawers |
| BspFaces.EachFaceOnce | pkg/bsp/bsp.go:351-397 | if the models' ranges partition the faces, the models' triangles together are those of all faces but triggers, once each |
| BspFaces.TrianglesAreGood | pkg/bsp/bsp.go:387-394 | all triangles refer to vertices and textures that exist |
| BspFaces.FacesToSkip | pkg/bsp/bsp.go:352-359 | the map has exactly the faces of the other models |
| BspFaces.FaceVertices | pkg/bsp/bsp.go:371-386 | an error iff a ledge is 0, else in order the vertices at which the positive ledges' edges start and the negative ones' edges end |
| BspFaces.MakeTriangles | pkg/bsp/bsp.go:351-397 | an error iff a face that the model is drawn with has a ledge 0, else the fans of just those faces in order |
| BspMesh.VertexTable.Remap | pkg/bsp/bsp.go:136-144 | the slot holds the vertex asked for; a new slot is added iff it had none |
| BspMesh.Compact | pkg/bsp/bsp.go:223-228 | after the rewriting in place every corner is in range and denotes the vertex it did, no vertex has two slots, and no slot is unused |
| BspMesh.CollectTextures | pkg/bsp/bsp.go:229-236 | the two texture maps are inverse to each other and hold exactly the textures in use |
| BspMesh.MapTextures | pkg/bsp/bsp.go:250-335 | the uv indices are in range and lead to the triangle's own three entries: at each vertex the dot product with the texture's first vector and its offset over the width, and with the second over the height |
| BspMesh.ListFaces | pkg/bsp/bsp.go:310-318 | each face of the mesh refers through the tables to its triangle's corners and texture |
| BspMesh.BuildMesh | pkg/bsp/bsp.go:219-335 | the mesh shows the triangles one by one, with their textures and texture coordinates, and has nothing else |
| BspMesh.PovTriangleMesh | pkg/bsp/bsp.go:200-340 | one such mesh for every model that has triangles, or nothing at all if a model fails |
| BspMesh.CompactionKeepsOutline | pkg/bsp/bsp.go:224-228 | between any two of its vertices the mesh has the same uncancelled edges as the triangles it was made from |
| BspOutline.MeshOutline | pkg/bsp/bsp.go:200-397 | if the ledges of the faces form loops, then between any two of its vertices the mesh of a model has exactly the uncancelled ledges of the faces that the model is drawn with |
| BspOutline.NothingIsLeftOut | pkg/bsp/bsp.go:200-397 | and no uncancelled ledge is at a vertex that the mesh does not have |
| Merge.FindNext | cmd/dscheduler/mkstats/plot.go:91-99 | finds the stream with the earliest next point in the past, the first of several, or that every next point is not in the past |
| Merge.Flip | cmd/dscheduler/mkstats/plot.go:86-119 | crashes iff a stream is empty and some stream can advance; else its rows are those of a sequence of steps that advance the earliest stream each, until none can |
| Merge.EmptySeriesCrashes | cmd/dscheduler/mkstats/plot.go:103-108 | two series on which it crashes |
| Merge.AloneIsSafe | cmd/dscheduler/mkstats/mkstats.go:450-456 | it never crashes on a single series |
| Merge.RowsAreSorted | cmd/dscheduler/mkstats/plot.go:109-116 | for sorted streams the rows are in the order of time, even though the clock moves on between steps |
| Merge.OneStreamMoves | cmd/dscheduler/mkstats/plot.go:111-116 | each row moves one stream on by one point and repeats the others |
| Merge.EarliestMoves | cmd/dscheduler/mkstats/plot.go:91-109 | and that point is in the past, and no later than the next point of any stream, nor as late as that of an earlier stream |
| Merge.ColumnIsStream | cmd/dscheduler/mkstats/plot.go:112-116 | the first row and the rows that advance a stream have its points so far in its column |
| Merge.MergeIsComplete | cmd/dscheduler/mkstats/plot.go:100-118 | if all points are in the past, every stream is followed to its end and there are 1 + sum(len - 1) rows, or none if that sum is 0 |
| Merge.EndsWithLast | cmd/dscheduler/mkstats/plot.go:111-118 | the last row then has the last value of every stream |
| Merge.ColumnsAreStreams | cmd/dscheduler/mkstats/plot.go:86-119 | and each column then is its whole stream |
| RunningSums.MakeEvents | cmd/dscheduler/mkstats/mkstats.go:327-352 | crashes iff a job took no time; else every job has its start and its end, with one machine more or less, and its rate: CPU time of both kinds in milliseconds over the duration, each quotient cut off towards zero |
| RunningSums.RateIsWhole | cmd/dscheduler/mkstats/mkstats.go:335 | for proper jobs the two cut-offs lose no more than one: the rate is the whole part of CPU time over duration |
| RunningSums.PlotAll | cmd/dscheduler/mkstats/mkstats.go:381-410 | for each architecture, each once, a line with the running sum before and after each of its events |
| RunningSums.LineIsStaircase | cmd/dscheduler/mkstats/mkstats.go:394-409 | a line starts at zero, has two points at the time of each of its events, goes on from where it was, and jumps by what the event says |
| RunningSums.SumIsRunning | cmd/dscheduler/mkstats/mkstats.go:405-409 | a running sum is the sum over the jobs that have started and not ended, in whatever order the events are |
| RunningSums.StartsFirst | cmd/dscheduler/mkstats/mkstats.go:371 | sorting by time puts a job's start before its end, however events of one time are ordered |
| RunningSums.SumIsBounded | cmd/dscheduler/mkstats/mkstats.go:394-409 | for jobs that end after they start, with usage not below zero, no sum falls below zero or rises above the total of its architecture |
| RunningSums.LeaseWeight | cmd/dscheduler/mkstats/mkstats.go:336-348 | which for leases is the number of its jobs |
| RunningSums.SumEndsAtZero | cmd/dscheduler/mkstats/mkstats.go:394-409 | every sum ends at zero, whatever the times of the jobs are |
| RunningSums.LinesAreMergeable | cmd/dscheduler/mkstats/mkstats.go:411-422 | the lines are sorted and not empty, so merging them neither crashes nor loses the order |
| RunningSums.TableIsBounded | cmd/dscheduler/mkstats/plot.go:104-116 | the bounds hold for every number in the merged table |
| RunningSums.TableEndsAtZero | cmd/dscheduler/mkstats/plot.go:112-118 | once everything is in the past the last row of the table is all zeros |
| DayCounts.StepBack | cmd/dscheduler/mkstats/mkstats.go:433-439 | between days, stepping back and forward again leaves the cursor where it was; before the first it can only skip one event |
| DayCounts.CountDays | cmd/dscheduler/mkstats/mkstats.go:428-449 | crashes iff there are days and no events, or the last event is before the last of several days; else the days are 86400 seconds apart up to the end, and every day but the first has its brute force count, and the first one its count and the excess |
| DayCounts.CountsAreRight | cmd/dscheduler/mkstats/mkstats.go:433-447 | all counts are right iff nothing came back before the first day began, except with the one event that is skipped |
| DayCounts.EarlyReturnIsCounted | cmd/dscheduler/mkstats/mkstats.go:433-447 | a job and its events on which a count is wrong |
| DayCounts.EachReturnOnce | cmd/dscheduler/mkstats/mkstats.go:430-449 | the days together have every return before the end of the last one, once |
| DayCounts.DayCountsJobs | cmd/dscheduler/mkstats/mkstats.go:441-447 | a day's brute force count is the number of jobs that ended on it |
| DayCounts.DaysCountJobs | cmd/dscheduler/mkstats/mkstats.go:430-449 | so every entry but the first has the number of jobs that ended in the 86400 seconds up to its time, and the first has no fewer |
| DayCounts.CrashesIff | cmd/dscheduler/mkstats/mkstats.go:433-437 | on the events of any jobs it crashes iff there are days and no jobs, or all jobs were over before the last of several days |
| DayCounts.QuietDaysCrash | cmd/dscheduler/mkstats/mkstats.go:433-437 | a job and its events on which it does |

## Left out

- Users, permissions, cookies, certificates, the RPC transport and its log: a lease's client, hostname and user columns are never read by the code modelled here.
- Database failures other than the ones in `Done`: a call whose statement fails has no effect and returns an error.
- Batches are never added or changed while the scheduler runs.
- Identifiers are texts that compare as the database's casts of them do; a uuid written in upper case by a client is not part of this model.
- Cloud storage is one bucket: that results are read from a list of other buckets is not part of this model, nor are the stored bytes, which two `Done` calls may overwrite.
- SchedulerRpcs.Scheduler.Done: the metadata is taken to parse. If it does not, the source goes on without it, and unless the metadata object is there already the upload ends the process; the handlers of that process then take no more steps.
- Clients other than the render client, the waiting and bookkeeping around a render, and running the renderer: of the client's lifecycle the renewals, the time until the lease is heard of, and the end of its `Done` retries are modelled.
- 32-bit overflow of requested and configured lease times in seconds.
- IEEE rounding of times, coordinates and angles; a time message with an infinite or undefined float is decoded as if it were a large number.
- Reading a demo file's blocks.
- DemoState.GenerateFrame: the level that is loaded for the first frame and kept in the state, because no other code modelled here reads it.
- Entity numbers of 1000 and above, at which the source crashes, are excluded by a predicate on messages; so are level indices out of range, by one on levels.
- Frames as text: the scene that is written is modelled, its POV-Ray form and the sound script are not, nor are mesh macros and the replacement of water and lava textures.
- The texture coordinates of a mesh are kept as the two fractions that are written, since a texture of size 0 makes the source divide by zero as floats do.
- Graph drawing, the machine table and the batch statistics.
- Clock readings in the statistics that go backwards are allowed, except that all points are past when a merge ends where a row says so.
- Model and pak files, the web interface, the order generator, and package link rewriting would add functions that are simple by themselves.
