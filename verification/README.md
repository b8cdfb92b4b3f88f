# Verified model of the tool-handover robot

A Dafny 4.11 model of the parts of the repository where a mistake is hard to see: the gripper's
TCP/Modbus link, the tool database, visual servoing, sequence execution with its E-stop, the PLC
client, and the calibration arithmetic. `dafny verify dfyconfig.toml` checks all of it.

How the model is built:

- Bytes are integers below 256; exclusive or is defined on numbers, so that the CRC can be read as
  a long division. Widths, masks and truncations are written out wherever the code has them.
- Code that updates objects or arrays in loops is a class or a method, proved against a function
  of the old state; the properties are then proved about that function. Protocols with threads are
  a function `Next` from a state and an atomic step to a state; a step that is not enabled changes
  nothing, and every theorem is about all lists of steps, that is, all interleavings.
- Clocks, poses, the outcome of a send, of a service call or of a sequence step are parameters, so
  a theorem about them holds for whatever the environment does.
- Lengths, angles and times are exact reals; the only rounding is that of the pulse conversion.

| module | what it models |
|---|---|
| `BitArithmetic`, `ModbusCrc`, `ModbusFrames` | CRC-16 and the Modbus RTU requests, in the node, the injected server and the HAL driver (MODBUS Application Protocol V1.1b3, sections 6.3, 6.6 and 6.12; MODBUS over Serial Line V1.02, section 6.2.2) |
| `PacketStream`, `GripperCommands`, `AckLink` | the binary protocol: both stream parsers, command and acknowledgement payloads, and the link with its threads |
| `BulkRead`, `DirectStreaming`, `GripperConversion` | register reads, delta sending, pulse and radian conversion |
| `ToolDatabase`, `ToolHistory`, `FodMonitor`, `StatusCache` | tool table and event log, the monitor's deadlines, the two status caches |
| `VisualServo` | the two alignment controllers, their loops, and the closed loop |
| `MotionSequences`, `RecordedCustody`, `MotionServer` | step lists and their executor, the recorded custody of a tool, lock and E-stop latch |
| `PlcConfig`, `PlcClient` | PLC configuration and the client over a self-holding ladder |
| `RigidTransforms` | inverse, forward kinematics and AX = XB residuals |

## What was found

The code meets most of what it promises. Where it does not, the model keeps the code as it is, and
the table below names the exact condition and a concrete run:

- The server looks for the word `STOP` inside each received piece, so a register write that happens
  to spell it ends the session or not depending on where the piece ends
  (`StopWordDependsOnChunks`). Exactly the streams without the word arrive however they are received
  (`EverySplitDeliversIff`); they are also served alike exactly if nothing to be answered comes
  behind a stop packet (`ServedAlikeIff`).
- The default cap of the node's receive buffer loses packets the header allows: every list arrives
  exactly up to 65017 payload bytes (`CapIsEnoughIff`). As long as no receive outgrows the cap the
  node is only late, never wrong (`NodeIsOnlyLate`), and it is late on exactly the streams with a
  packet behind a bad header (`NodeAgreesIff`).
- The wire carries the low sixteen bits of a command id. A command with a larger id is never woken,
  and with 65536 ids handed out after its own a call can report another command's success
  (`WideIdsNeverSucceed`, `AliasedOkIsFalse`).
- Skipping what the node believes the gripper holds is right exactly when the gripper does hold it
  (`MixedRunIff`). A `set_position` to another current or goal breaks that
  (`SetPositionKeepsStepIff`, `SkippedReopen`), and so does a batch that was sent and never written
  (`LostBatchIsNotRepeated`).
- The spanning register read and the separate reads differ for position widths other than one and
  two, and when a separate read is never answered (`BulkAgreesIff`).
- The 300 seconds of the repository's cache count from the stamp, not from the read; the delay adds
  to the age (`DelayAddsToAge`). The client's comment promises that its cache fails closed after the
  same time. Its one stamp is shared, so it does exactly when no other tool was read later
  (`FailsClosedIff`), and otherwise hides any age (`SharedStampHidesAge`).
- With `stable_frames` zero or less, and only then, a servo run leaves DETECT on an invalid frame
  (`NoStableFramesNeededIff`); motion still waits for a valid one.
- A second intent that arrives before the first one's updates are sent can have a pick recorded for
  another tool (`SecondIntentRunsAhead`). That happens exactly to the tool active at the pick
  (`PickRecordsActiveIff`, `OthersStayPut`). The record of the handled tool is never ahead
  (`RecordNeverAhead`), except through an update that an earlier run in the same direction left
  under way for it (`LeftoversAreHarmlessIff`).
- Under the E-stop latch the hand approach still sends two commands and a sequence in its last step
  still returns true (`HandApproachSendsTwo`, `LastStepReturnsTrue`).
- An E-stop that is reset before anything looks at the latch does not change what the sequence does,
  unless the stopped step fails (`EStopIsUnseenIff`, `SucceedsIff`), and then commands are sent while
  the arm is published as standing still and the PLC as idle (`CommandsWhileIdle`).
- The comments promise that a handover aborted with the tool gripped keeps voice commands out until
  the operator resets. It does so exactly if no reset came after the grip and nothing
  published in between that the arm stands still (`StaysBlockedIff`); an E-stop publishes just that
  (`EStopUnblocks`).
- The PLC configuration accepts a reset coil that is also a start coil; the law of the latches holds
  exactly without that (`LawIffResetApart`).
- A zero AX = XB residual compares translations only. Together with equal rotations it does mean a
  consistent calibration, and without them it does not (`FixedTargetInHandIff`,
  `FixedTargetToHandIff`, `ZeroResidualIsNotEnough`).

## Model

| member | source | states |
|---|---|---|
| ModbusCrc.FeedAllIsDivision | ros2_ws/src/motion/motion/gripper_node.py:67-73 | The byte loop is one long division: the register after a message is the message, as one little-endian number combined with the start value, shifted out bit by bit |
| ModbusCrc.CrcIsRemainderIff | ros2_ws/src/motion/motion/gripper_node.py:67-73 | It is CRC-16/MODBUS: a word is the CRC of a message exactly if the message with all ones added to its first sixteen bits, and the word added behind it, is a carry-less multiple of x^16 + x^15 + x^2 + 1 in reflected bit order |
| ModbusCrc.FrameResidueIsZero | ros2_ws/src/motion/motion/gripper_node.py:67-73 | For every body, the CRC of the body followed by its CRC bytes, low byte first, is zero |
| ModbusCrc.BurstIsDetected | ros2_ws/src/motion/motion/gripper_node.py:67-73 | Every error confined to sixteen consecutive bits, at any bit offset of a message of any length, changes the CRC |
| ModbusCrc.TwoAdjacentBytesAreDetected | ros2_ws/src/motion/motion/gripper_node.py:67-73 | Corruption confined to two adjacent bytes, CRC bytes included, changes the CRC |
| ModbusCrc.OddErrorsAreDetected | ros2_ws/src/motion/motion/gripper_node.py:67-73 | Any odd number of flipped bits, spread anywhere, changes the CRC |
| ModbusCrc.UndetectedIff | ros2_ws/src/motion/motion/gripper_node.py:67-73 | Two messages of one length have the same CRC exactly if their difference is a carry-less multiple of that generator |
| ModbusCrc.NodeCrc16 | ros2_ws/src/motion/motion/gripper_node.py:67-73 | The node's loop computes that CRC, packed low byte first |
| ModbusCrc.DrlCrc16 | ros2_ws/src/motion/motion/gripper_node.py:216-225 | The injected server's loop computes that CRC |
| ModbusCrc.HalCrc16 | hal/doosan/gripper_driver.py:32-38 | The HAL driver's loop computes that CRC, packed low byte first |
| ModbusFrames.FrameDecodes | ros2_ws/src/motion/motion/gripper_node.py:76-90 | A slave decodes a built frame to exactly the request it was built from, and refuses it if the request breaks the protocol's quantity limits |
| ModbusFrames.DecodedIsBuilt | ros2_ws/src/motion/motion/gripper_node.py:76-90 | Nothing else decodes: an accepted frame is the built frame of its request, byte for byte |
| ModbusFrames.FrameLayout | ros2_ws/src/motion/motion/gripper_node.py:76-90 | Slave, function code, words high byte first, byte count and CRC low byte first stand where the protocol has them |
| ModbusFrames.DamagedFrameIsRefused | ros2_ws/src/motion/motion/gripper_node.py:76-90 | A built frame with two adjacent bytes damaged is refused by every slave |
| ModbusFrames.NodeFc03 | ros2_ws/src/motion/motion/gripper_node.py:88-90 | The node's read request is the reference frame; it raises exactly on fields outside sixteen bits |
| ModbusFrames.NodeFc06 | ros2_ws/src/motion/motion/gripper_node.py:76-78 | The node's single write is the reference frame; it raises exactly on fields outside sixteen bits (the HAL driver's has the same body) |
| ModbusFrames.NodeFc16 | ros2_ws/src/motion/motion/gripper_node.py:81-85 | The node's multiple write is the reference frame; it raises exactly on fields that do not fit |
| ModbusFrames.HalFc16 | hal/doosan/gripper_driver.py:46-51 | The HAL driver's multiple write is the same frame, with the register count taken from the list |
| ModbusFrames.DrlFrame | ros2_ws/src/motion/motion/gripper_node.py:227-235 | The server's requests are the reference frames of the fields taken modulo 65536 |
| PacketStream.SendBin | ros2_ws/src/motion/motion/gripper_node.py:852-854 | Sends the encoding of the packet with type and sequence number masked, and raises exactly on payloads of 65536 bytes or more |
| PacketStream.HeaderLayout | ros2_ws/src/motion/motion/gripper_node.py:852-854 | Magic, version, type, sequence number and size stand in the header where both sides expect them |
| PacketStream.ServerReceiver.ReceivePackets | ros2_ws/src/motion/motion/gripper_node.py:404-437 | The server's receiver returns the packets of its buffer followed by all receives, keeps the rest, and ends the session at the first empty or stop-word piece |
| PacketStream.ServerReceiver.ReceiveAll | ros2_ws/src/motion/motion/gripper_node.py:468-472 | The polls of a session give the packets of its specification, up to the poll that ends it |
| PacketStream.ServerIsChunkIndependent | ros2_ws/src/motion/motion/gripper_node.py:404-437 | Whatever the stream, garbage included, and however it was received: a session delivers the stream of the polls it survives, cut as if at once, and is still running exactly if no poll closed the socket or spelled the stop word inside one receive |
| PacketStream.PacketsRoundTrip | ros2_ws/src/motion/motion/gripper_node.py:852-854 | Parsing an encoded packet list gives the list back, and what follows is parsed as if alone |
| PacketStream.ParsedIsEncoded | ros2_ws/src/motion/motion/gripper_node.py:421-437 | On every stream, garbage included, the packets cut are packets whose encodings stand in the stream, in order and without overlap |
| PacketStream.GarbageIsSkipped | ros2_ws/src/motion/motion/gripper_node.py:421-432 | Garbage without the magic's first byte never costs a packet behind it |
| PacketStream.EverySplitDeliversIff | ros2_ws/src/motion/motion/gripper_node.py:412-418 | A stream arrives in full under every way of receiving it, with receives of at most c bytes, exactly when it does not spell the stop word or c is below four |
| PacketStream.PacketsArriveIff | ros2_ws/src/motion/motion/gripper_node.py:852-854 | A packet list arrives as sent under every way of receiving it exactly when its bytes do not spell the stop word |
| PacketStream.NodeReceiver.TryParseOne | ros2_ws/src/motion/motion/gripper_node.py:856-872 | One packet, or one bad byte dropped, or nothing |
| PacketStream.NodeReceiver.OnChunk | ros2_ws/src/motion/motion/gripper_node.py:970-992 | One receive of the node: cap the buffer, then take packets until the parser returns nothing |
| PacketStream.NodeIsOnlyLate | ros2_ws/src/motion/motion/gripper_node.py:856-992 | On every stream, as long as no receive outgrows the cap, the server's packets are the node's followed by those still inside the node's buffer |
| PacketStream.NodeAgreesWithServer | ros2_ws/src/motion/motion/gripper_node.py:856-872 | On a stream that starts on a frame boundary, as long as no receive outgrows the cap, node and server cut the same packets and hold the same buffer after every receive |
| PacketStream.EncodedIsClean | ros2_ws/src/motion/motion/gripper_node.py:852-854 | Every prefix of an encoded stream meets the conditions of that agreement |
| PacketStream.DefaultCapIsEnough | ros2_ws/src/motion/motion/gripper_node.py:970-976 | With the default cap and receives of at most 512 bytes, packets of up to 65017 payload bytes arrive exactly as sent |
| PacketStream.CapIsEnoughIff | ros2_ws/src/motion/motion/gripper_node.py:970-976 | For every payload limit the header allows: all packet lists within it arrive as sent under every way of receiving them by 512 bytes exactly when the limit is at most 65017 |
| PacketStream.TailSurvivesTrim | ros2_ws/src/motion/motion/gripper_node.py:975-976 | After an overflow the packets that lie whole in the last max(1024, keep) bytes are found again |
| PacketStream.GarbageDelaysNode | ros2_ws/src/motion/motion/gripper_node.py:865-867 | One garbage byte is enough to make the node wait for a further receive |
| PacketStream.NodeAgreesIff | ros2_ws/src/motion/motion/gripper_node.py:856-992 | As long as no receive outgrows the cap, the node cuts the server's packets under every way of receiving a stream exactly when no packet comes behind the first bad header |
| GripperCommands.CommandRoundTrip | ros2_ws/src/motion/motion/gripper_node.py:899-903 | The server decodes exactly the frames the node encoded; trailing bytes do not matter |
| GripperCommands.AcceptedIffEncoded | ros2_ws/src/motion/motion/gripper_node.py:483-501 | A payload is accepted exactly when it starts with the encoding of a frame list, and then that list is what the server takes from it |
| GripperCommands.CutCommandWritesPrefix | ros2_ws/src/motion/motion/gripper_node.py:483-501 | A command cut short anywhere is never acknowledged ok and only leading frames are written |
| GripperCommands.AckRoundTrip | ros2_ws/src/motion/motion/gripper_node.py:507-512 | The node reads the verdict and the first 200 bytes of the message back out of the acknowledgement |
| GripperCommands.AckLayout | ros2_ws/src/motion/motion/gripper_node.py:507-512 | Verdict, length and message stand in the acknowledgement where the node reads them |
| GripperCommands.DrlServer.RunCommand | ros2_ws/src/motion/motion/gripper_node.py:481-506 | Writes the decoded frames in order up to the exception of the serial line, and reports ok exactly when all were there, all were written and no exception came, not even behind the last one |
| GripperCommands.DrlServer.RunBatch | ros2_ws/src/motion/motion/gripper_node.py:473-512 | Serves the packets of one receive in order, up to a stop packet: a pong for a ping, and for a command its writes and the acknowledgement of its own outcome |
| GripperCommands.BatchesCompose | ros2_ws/src/motion/motion/gripper_node.py:473-512 | Without a stop packet, serving two batches one after the other is serving them as one |
| GripperCommands.ExecutionIsChunkIndependent | ros2_ws/src/motion/motion/gripper_node.py:468-512 | As long as no poll ends the session and nothing to be answered comes behind a stop packet, what the server writes and answers depends on the byte stream alone |
| GripperCommands.ServedAlikeIff | ros2_ws/src/motion/motion/gripper_node.py:468-512 | A stream is served alike under every way of receiving it exactly when it does not spell the stop word and carries no ping and no command behind a stop packet |
| GripperCommands.StopWordDependsOnChunks | ros2_ws/src/motion/motion/gripper_node.py:416-417 | A register write the node can send spells the stop word: it ends the session when received whole and goes through when the cut falls inside the word |
| GripperCommands.ServeSession | ros2_ws/src/motion/motion/gripper_node.py:468-472 | The main loop serves the packets of every poll in order until a poll ends the session |
| GripperCommands.AnswersTellTheTruth | ros2_ws/src/motion/motion/gripper_node.py:468-512 | Over every session, however received and whatever raises: each ping and command taken from the stream gets its reply, in order; a command's reads ok exactly if its payload was complete and nothing raised, and then all its frames are on the serial line; the line holds nothing but what the commands wrote |
| AckLink.OkMeansCarriedOut | ros2_ws/src/motion/motion/gripper_node.py:885-931 | In every interleaving of client threads, server and receive loop: a call that returns ok, with fewer than 65536 ids handed out after its own, means that the server carried out exactly that command, once, writing all its frames in order |
| AckLink.FinishReportsVerdict | ros2_ws/src/motion/motion/gripper_node.py:885-931 | In every interleaving a woken call with fewer than 65536 ids handed out after its own returns exactly the verdict with which the server carried out that command |
| AckLink.ServedAsOneBatch | ros2_ws/src/motion/motion/gripper_node.py:468-512 | Along every run the server's writes and replies are those of serving the packets handed over, in order, as one batch |
| AckLink.ForgetMeansSent | ros2_ws/src/motion/motion/gripper_node.py:933-951 | A fire-and-forget call returns true exactly if its packet was handed to the connection |
| AckLink.WideIdsNeverSucceed | ros2_ws/src/motion/motion/gripper_node.py:853-854 | A call with an id of 65536 or more is never woken and never reports ok |
| AckLink.AliasedOkIsFalse | ros2_ws/src/motion/motion/gripper_node.py:999-1014 | The bound is exact: for every id the wire can carry there is a run, with one more id handed out, that returns ok although the command was not carried out |
| BulkRead.ReadCurrent | ros2_ws/src/motion/motion/gripper_node.py:237-248 | One answer among three tries gives what it says, none gives the failure marker |
| BulkRead.ReadPosition | ros2_ws/src/motion/motion/gripper_node.py:260-277 | The same for the position |
| BulkRead.ReadBulk | ros2_ws/src/motion/motion/gripper_node.py:279-317 | The spanning read in three tries, then the two separate reads, with every index inside its data |
| BulkRead.SignedIsTwosComplement | ros2_ws/src/motion/motion/gripper_node.py:237-277 | The values read are the two's-complement ones: in the signed range and congruent to the register bits |
| BulkRead.PositionIsRegisters | ros2_ws/src/motion/motion/gripper_node.py:260-277 | For one or two position registers the separate read gives the registers' two's-complement value |
| BulkRead.OtherWidthsFail | ros2_ws/src/motion/motion/gripper_node.py:269-276 | With any other register count the separate read always fails |
| BulkRead.BulkRefinesSeparate | ros2_ws/src/motion/motion/gripper_node.py:279-317 | For every register file, placement of one or two position registers and loss of answers: if the span is heard once in three tries, or else both separate reads are, the spanning read returns the signed current and the position |
| BulkRead.BulkAgreesIff | ros2_ws/src/motion/motion/gripper_node.py:279-317 | For all configurations in the register space and all losses: the exact condition under which the two ways of reading agree |
| DirectStreaming.DirectSender.DirectCommand | ros2_ws/src/motion/motion/gripper_node.py:1564-1580 | Sends what changed, remembers it once the send has returned, whatever part of it is written, and raises exactly on a new current outside sixteen bits |
| DirectStreaming.DirectSender.SetPosition | ros2_ws/src/motion/motion/gripper_node.py:1676-1680 | Sends both registers, acknowledged or not, whatever part is written, and leaves the remembered values alone |
| DirectStreaming.GoalIsScaledPulse | ros2_ws/src/motion/motion/gripper_node.py:1605 | The goal sent is the scaled pulse to the nearest integer, modulo 65536; a scale of zero counts as one |
| DirectStreaming.DeltaMeansFull | ros2_ws/src/motion/motion/gripper_node.py:1564-1580 | For every run of direct commands, failed sends included, in which every batch that leaves the node is written: the registers the gripper decodes are throughout those of sending both frames every time |
| DirectStreaming.DeltaStepIsFullIff | ros2_ws/src/motion/motion/gripper_node.py:1564-1580 | One direct command in any state has the effect of sending both frames exactly when the registers hold what it leaves out |
| DirectStreaming.MixedRunIff | ros2_ws/src/motion/motion/gripper_node.py:1564-1680 | Over every mix of direct commands and set_positions, failed, lost and cut batches included: the registers are throughout those of full sending exactly when at every direct command they hold what it leaves out |
| DirectStreaming.SetPositionKeepsStepIff | ros2_ws/src/motion/motion/gripper_node.py:1676-1680 | A set_position keeps the remembered values true exactly when it writes the same current and the same goal |
| DirectStreaming.SkippedReopen | ros2_ws/src/motion/motion/gripper_node.py:1566-1567 | For every gripper state and two commands: a command, a set_position to another goal, the command again; the repeat is skipped and the goal stays the other one |
| DirectStreaming.LostBatchIsNotRepeated | ros2_ws/src/motion/motion/gripper_node.py:933-951 | A batch whose send returned and which was never written is not sent again |
| GripperConversion.PulseRoundTrip | ros2_ws/src/motion/motion/gripper_conversion.py:22-48 | Every pulse of the stroke survives the way to radians and back |
| GripperConversion.PulseRoundTripIff | ros2_ws/src/motion/motion/gripper_conversion.py:22-48 | That holds for the whole stroke exactly when it is a single pulse or the closed angle lies above the open one |
| GripperConversion.AngleRoundTrip | ros2_ws/src/motion/motion/gripper_conversion.py:22-48 | Every angle of the range returns within half a pulse's worth of radians |
| GripperConversion.PulseInRange | ros2_ws/src/motion/motion/gripper_conversion.py:22-32 | Whatever the angle, the pulse is inside the stroke |
| GripperConversion.AngleInRange | ros2_ws/src/motion/motion/gripper_conversion.py:35-48 | Whatever the pulse, the angle is inside the range |
| GripperConversion.RadToPulseIsMonotone | ros2_ws/src/motion/motion/gripper_conversion.py:22-32 | A larger angle never gives a smaller pulse |
| GripperConversion.PulseToRadIsMonotone | ros2_ws/src/motion/motion/gripper_conversion.py:35-48 | A larger pulse never gives a smaller angle |
| GripperConversion.PulseToRadIsLinear | ros2_ws/src/motion/motion/gripper_conversion.py:35-48 | A pulse of the stroke has come the same part of the way as its angle, and outside it the angle is that of the nearer end |
| GripperConversion.RadToPulseIsNearest | ros2_ws/src/motion/motion/gripper_conversion.py:22-32 | The pulse is the nearest to the angle's place on that line |
| GripperConversion.RoundOfHalf | ros2_ws/src/motion/motion/gripper_conversion.py:22-32 | Halves go to the even pulse |
| ToolDatabase.Database.UpdateToolStatus | db_core/repository.py:268-333 | The transaction of an update: success exactly for an accepted one, which appends one event and rewrites the row; otherwise nothing changes |
| ToolDatabase.Database.InsertEvent | db_core/repository.py:646-677 | Appends one event; its id is its position in the log |
| ToolDatabase.Database.AppendRejection | db_core/repository.py:562-591 | Appends a rejection with the caller's status and moves only the row's last event id |
| ToolDatabase.Database.MarkCheckoutTimeouts | db_core/repository.py:335-387 | The monitor's poll: every row judged by the snapshot, the events and reports of exactly the rows raised |
| ToolDatabase.PollRaisesOneLevel | db_core/repository.py:335-387 | A poll raises each tool by its own row alone, and by one level at most |
| ToolHistory.SnapshotAgreesWithLog | db_core/repository.py:268-333 | In every interleaving of updates, polls and rejections, stale ones included: the snapshot status is that left by the latest counted event, the row's time is that event's, and last event id and chain agree |
| ToolHistory.LogJoins | db_core/repository.py:268-333 | Read from the log alone: consecutive chain events join, the last one is the current status, and no event of the tool has a greater id than the recorded one |
| ToolHistory.UpdateStaysInLog | db_core/repository.py:276-333 | An accepted update sets status, time and event id of its row and stays in the log for ever, with all it said and the time of its transaction; a refused one changes nothing |
| ToolHistory.RejectionStaysInLog | db_core/repository.py:714-724 | So does a rejection, which leaves status and time of the row alone |
| ToolHistory.CustodyIsConserved | db_core/repository.py:65-70 | From a tool in its slot and without reconciliation, it left the slot as often as it came back, plus once when it is not there |
| ToolHistory.AlarmIsOneWay | db_core/repository.py:612-644 | Over every run: missing is left only for alert or by reconciliation, alert only by reconciliation, and no other external update enters either |
| ToolHistory.AlarmStays | db_core/repository.py:612-644 | Without reconciliation a tool that is missing or in alert stays missing or goes to alert |
| FodMonitor.RaisedByDeadline | db_core/repository.py:335-387 | The first poll at or after a deadline raises the tool by one level and nothing changes its record before |
| FodMonitor.AlarmIsRaisedInTime | db_core/repository.py:335-387 | A tool left out or staged at t is missing from a poll in [t+T, t+T+P] on and in alert from a later poll in [t+T+G, t+T+G+2P] on, however many rejections are logged |
| FodMonitor.UpdateStartsClock | db_core/repository.py:276-387 | The same from the update itself: a tool reported out or staged at t keeps that status up to a poll in [t+T, t+T+P], and is then missing and later in alert within the same windows |
| FodMonitor.ErrorRestartsClockRejectionDoesNot | db_core/repository.py:714-724 | An error record restarts the clock, a rejection does not |
| StatusCache.ToolRepository.CachedStatus | db_core/repository.py:525-534 | An entry is used up to its 300th second |
| StatusCache.ToolRepository.CheckStatus | db_core/repository.py:188-211 | Fine exactly when the status admits the intent; otherwise the rejection carries that status and is logged if the database can be written |
| StatusCache.ToolRepository.CheckFeasibility | db_core/repository.py:150-211 | Feasible exactly when the status it judges by admits the intent: the current row when the database answers, a usable entry when it does not; a rejection is logged with that status |
| StatusCache.AdmitsIffPickAccepted | db_core/repository.py:188-211 | The gate lets through exactly the intents whose pick the database then takes |
| StatusCache.ToolRepository.UpdateToolStatus | db_core/repository.py:324-333 | The new status enters the cache exactly after its commit |
| StatusCache.CachedStatusIsRecent | db_core/repository.py:525-534 | Over all runs of reads, stores, writes of any process and clock advances: a cached decision uses a status the tool really had at most 300 seconds plus the read-to-stamp delay earlier |
| StatusCache.DelayAddsToAge | db_core/repository.py:181-186 | That bound is reached for every delay |
| StatusCache.DbClient.GetToolStatus | db_core/client.py:81-111 | Only a failing query falls back on the cache; a successful one stamps all entries |
| StatusCache.FallbackUsesTwoReads | db_core/client.py:225-234 | After any calls the fallback tests the age of the last read of any tool and answers with the last read of this one |
| StatusCache.FailsClosedIff | db_core/client.py:225-234 | After any calls the fallback answers at no clock with a read of this tool more than 300 seconds old exactly when no other tool was read at a later time |
| StatusCache.LastReadToolIsFresh | db_core/client.py:225-234 | For the tool read last the answer is at most 300 seconds old |
| StatusCache.SharedStampHidesAge | db_core/client.py:225-234 | For any other tool it can be as old as one likes |
| VisualServo.HandleServoController.Tick | unit_actions/visual_servoing.py:171-251 | The xz controller is the two-axis machine with y locked; it raises when the pose service fails in ALIGN |
| VisualServo.HandleServoController.TickDetect | unit_actions/visual_servoing.py:192-210 | Counts valid frames in a row, starts over on an invalid one, and leaves DETECT at the required count |
| VisualServo.HandleServoController.TickAlignXz | unit_actions/visual_servoing.py:214-251 | One ALIGN tick of the two-axis machine: back to DETECT, raise, DONE, or a clamped velocity |
| VisualServo.ToolServoController.Tick | unit_actions/visual_servoing.py:317-391 | The xy controller is the same machine with z locked |
| VisualServo.MotionIsSafe | unit_actions/visual_servoing.py:171-251 | In every run, motion is commanded only in ALIGN, after stable_frames + 1 valid ticks with E-stop clear and no timeout, within the limit |
| VisualServo.DoneNeedsSteadyTarget | unit_actions/visual_servoing.py:214-251 | DONE is entered only after stable_frames + 1 such ticks, within the threshold |
| VisualServo.NoStableFramesNeededIff | unit_actions/visual_servoing.py:192-210 | Some run leaves DETECT on an invalid frame exactly when stable_frames is zero or less |
| VisualServo.ErrorIsAbsorbing | unit_actions/visual_servoing.py:171-187 | ERROR is never left, DONE only for ERROR, and neither commands motion |
| VisualServo.AlignTickConverges | unit_actions/visual_servoing.py:214-251 | One ALIGN tick with an exact move: no axis overshoots and the sum of the errors falls by at least dt * min(kp * thr / 2, limit) |
| VisualServo.LoopConverges | unit_actions/visual_servoing.py:214-251 | In the closed loop DONE is reached within the resulting tick count unless E-stop or the timeout comes first |
| VisualServo.EveryStartConverges | ros2_ws/src/motion/motion/toolbox_seq_runner.py:864-888 | The simulated closed loop reaches DONE within a computed number of ticks from every start, for every tuned controller whose timeout leaves the time |
| VisualServo.StaysOnItsSideIff | unit_actions/visual_servoing.py:244-251 | A move leaves an axis that is off target on its own side and no further off exactly when kp * dt is at most one or limit * dt is at most the error |
| VisualServo.AlignsIffClose | unit_actions/visual_servoing.py:214-251 | An ALIGN tick that sees its target is done exactly when the arm is within the threshold of it |
| VisualServo.HandlePlant | ros2_ws/src/motion/motion/toolbox_seq_runner.py:1133-1150 | The move commanded for the handle takes the arm towards it by exactly what the closed loop assumes, y untouched |
| VisualServo.ToolPlant | ros2_ws/src/motion/motion/toolbox_seq_runner.py:1094-1110 | The same for the tool, z untouched |
| VisualServo.ArmReachesHandle | ros2_ws/src/motion/motion/toolbox_seq_runner.py:842-891 | From every arm position a tuned, unhindered run of the handle loop ends in DONE within the computed ticks, the arm within the threshold of the handle in x and z and its y unchanged |
| VisualServo.ArmReachesTool | ros2_ws/src/motion/motion/toolbox_seq_runner.py:937-986 | The same for the tool loop, in x and y, z unchanged |
| VisualServo.ExecVisualServo | ros2_ws/src/motion/motion/toolbox_seq_runner.py:842-891 | The runner's loop ends within the timeout and two sleeps, whatever it meets, and succeeds exactly when it ends in DONE |
| VisualServo.ExecVisualServoXy | ros2_ws/src/motion/motion/toolbox_seq_runner.py:937-986 | The same for the tool controller |
| VisualServo.GoodRunSucceeds | ros2_ws/src/motion/motion/toolbox_seq_runner.py:864-888 | In a converging closed loop that is given the time the runner can only end in DONE, within the bound |
| MotionSequences.RunSequence | ros2_ws/src/motion/motion/tool_action_server.py:1107-1139 | Steps run in order up to the first that does not proceed; a marker is published exactly when its step succeeded |
| MotionSequences.SequencesAreHonest | unit_actions/toolbox_motion.py:711-768 | In the fetch and return sequences every marker follows the step that moves the tool to that stage, and no other step moves it |
| MotionSequences.DrawerIsWorked | unit_actions/toolbox_motion.py:298-368 | From a closed drawer: at every pick and place of fetch and return the drawer is open and let go of, the handle is never torn along, and the drawer is closed in the end |
| RecordedCustody.UpdateIsTakenIff | db_core/repository.py:65-70 | The database takes a pick exactly on the origin's status and a place exactly on out, so a reordered place is refused |
| RecordedCustody.SuccessesRun | ros2_ws/src/motion/motion/tool_action_server.py:1107-1139 | The custody machine does what the executor's loop does, step for step and marker for marker |
| RecordedCustody.RecordNeverAhead | ros2_ws/src/orchestrator/orchestrator/orchestrator_node.py:210-249 | Under any step failure, cancel or E-stop, with both updates delayed, reordered or lost, further intents coming in, the monitor and other processes writing, and late updates of earlier runs for other tools or of the other direction: the record of the tool the arm handles is at or behind its stage, or flagged |
| RecordedCustody.LeftoversAreHarmlessIff | ros2_ws/src/orchestrator/orchestrator/orchestrator_node.py:210-249 | However a run goes its record is never ahead exactly when no update of an earlier run in the same direction is still under way for its tool |
| RecordedCustody.FinishedRunAgreesIff | ros2_ws/src/orchestrator/orchestrator/orchestrator_node.py:210-249 | After a run that carried out every step, whatever intents came in, record and tool agree exactly when a pick's update for this tool arrived before a place's |
| RecordedCustody.RecordMovesIff | ros2_ws/src/orchestrator/orchestrator/orchestrator_node.py:210-249 | Any tool's record leaves its status exactly when an update named after the tool arrived that moves that status |
| RecordedCustody.OthersStayPut | ros2_ws/src/orchestrator/orchestrator/orchestrator_node.py:146-175 | The record of a tool that is never the active one when a marked step succeeds stays as it was, or is flagged |
| RecordedCustody.PickRecordsActiveIff | ros2_ws/src/orchestrator/orchestrator/orchestrator_node.py:210-249 | When a pick succeeds and its update arrives, of all tools at their origin exactly the active one is recorded as out |
| RecordedCustody.SecondIntentRunsAhead | ros2_ws/src/orchestrator/orchestrator/orchestrator_node.py:146-175 | With a second intent, in a fetch and in a return, the record of another tool runs ahead of it |
| MotionServer.OneSequenceAtATime | ros2_ws/src/motion/motion/tool_action_server.py:357-366 | In every interleaving at most one sequence is between taking and giving back the lock |
| MotionServer.CommandsDoNotInterleave | ros2_ws/src/motion/motion/tool_action_server.py:357-366 | While a sequence holds the lock every command sent is its own |
| MotionServer.EStopStops | ros2_ws/src/motion/motion/tool_action_server.py:1107-1117 | Once the latch is set and not reset: no command but those the entered step has left, at most one for a plain step and two for the hand approach, none by any other thread; true is returned only by a sequence already in its last step |
| MotionServer.RefusedForGood | ros2_ws/src/motion/motion/tool_action_server.py:346-350 | A request that comes in under the latch is refused for good |
| MotionServer.HandApproachSendsTwo | ros2_ws/src/motion/motion/tool_action_server.py:824-927 | The bound is reached: a run from the start sends two commands after the latch is set |
| MotionServer.LastStepReturnsTrue | ros2_ws/src/motion/motion/tool_action_server.py:1107-1139 | And a run from the start sends its last command after the latch is set and returns true |
| MotionServer.GivesUpIff | ros2_ws/src/motion/motion/tool_action_server.py:1107-1139 | A sequence gives up exactly if some event of its run stops it: the latch seen at the head of a step or while it watches, a cancel seen, or a step that fails |
| MotionServer.SucceedsIff | ros2_ws/src/motion/motion/tool_action_server.py:357-401 | A call that has left its sequence returns true exactly if nothing stopped it and the goal was not cancelled at the end |
| MotionServer.OutcomeIsPublished | ros2_ws/src/motion/motion/tool_action_server.py:377-401 | The PLC is told error if a tool is still gripped, nothing new if the goal was cancelled, else idle exactly if nothing stopped the sequence and error otherwise |
| MotionServer.EStopIsUnseenIff | ros2_ws/src/motion/motion/tool_action_server.py:1059-1103 | E-stops and resets leave lock, progress and commands at every moment as they would be without them exactly if no request, no head of a step and no watching step looks at the latch while it is set |
| MotionServer.CommandsWhileIdle | ros2_ws/src/motion/motion/tool_action_server.py:1059-1103 | Such an E-stop is not without effect: a run sends its commands while the arm is published as standing still and the PLC as idle |
| MotionServer.MovingIsPublishedIff | ros2_ws/src/motion/motion/tool_action_server.py:1059-1103 | While a sequence runs the arm is published as moving exactly if neither an E-stop nor a reset without a gripped tool has published since its start |
| MotionServer.StaysBlockedIff | ros2_ws/src/motion/motion/tool_action_server.py:566-579 | A finished handover leaves the arm announced as moving exactly if the tool was gripped and not let go of, no reset came after the grip, and no E-stop or other reset published during the handover |
| MotionServer.EStopUnblocks | ros2_ws/src/motion/motion/tool_action_server.py:566-579 | An E-stop that aborts a handover with the tool gripped leaves the arm announced as standing still, without any reset |
| MotionServer.LatchIsShown | ros2_ws/src/motion/motion/tool_action_server.py:1059-1103 | After an E-stop the PLC shows e_stop, after a reset error or idle by the grip flag, until something else publishes; one stop request is sent if the service is ready |
| PlcConfig.NormalizeOutputs | plc_core/config.py:207-231 | Every state gets labels, those of the last entry that names it; fails exactly on an unknown state |
| PlcConfig.SplitCommasJoins | plc_core/config.py:222-227 | A label text is taken apart at its commas and nowhere else |
| PlcConfig.StripIsInner | plc_core/config.py:222-229 | Stripping takes off all the white space at both ends and nothing else |
| PlcConfig.UpperFoldsCase | plc_core/config.py:132-142 | Names are compared letter by letter without regard to case |
| PlcConfig.PostInit | plc_core/config.py:54-101 | Refuses a configuration exactly if its shape is wrong, a state is unknown or a state's labels are not all start coils; what it accepts keeps labels and addresses |
| PlcConfig.CoilAddressForLabel | plc_core/config.py:132-142 | The loop finds the first circuit with the label |
| PlcConfig.LookupSucceeds | plc_core/config.py:132-147 | Lookup never fails on a label an accepted configuration gives to a state |
| PlcConfig.LookupIff | plc_core/config.py:132-142 | With distinct labels and addresses a label finds a circuit exactly when it names it |
| PlcClient.ModbusPlcClient.PulseCoil | plc_core/modbus_client.py:157-172 | A coil is switched on and, if that went through, off again |
| PlcClient.ModbusPlcClient.WriteStartCoils | plc_core/modbus_client.py:174-195 | Batch write or loop, as the addresses allow, up to the first error |
| PlcClient.ModbusPlcClient.PulseStartCoils | plc_core/modbus_client.py:197-207 | All start coils on and, if that went through, off again |
| PlcClient.ModbusPlcClient.ResetOutputs | plc_core/modbus_client.py:209-212 | The reset coil is pulsed |
| PlcClient.ModbusPlcClient.PulseOutputs | plc_core/modbus_client.py:252-254 | The labels of a state are looked up and pulsed in order up to the first error |
| PlcClient.ModbusPlcClient.SetSystemState | plc_core/modbus_client.py:234-257 | Reset and pulses in order up to the first error; the recorded state changes exactly when all went through |
| PlcClient.ModbusPlcClient.SetEstop | plc_core/modbus_client.py:264-271 | The E-stop state is applied without a reset first |
| PlcClient.BatchIsLoop | plc_core/modbus_client.py:174-195 | Batch write and loop leave the same coils and latches |
| PlcClient.LatchesAreHistory | plc_core/modbus_client.py:234-271 | After any error-free run of calls that pulse no start coil wired as the reset coil: every coil is off, and an output is held exactly when some call latched it, or it was held, and no call cleared the latches since |
| PlcClient.StateLatchesIff | plc_core/modbus_client.py:247-254 | A state change latches a circuit exactly when one of the state's labels names it |
| PlcClient.CallLawIff | plc_core/modbus_client.py:209-257 | For one call the law of the latches holds exactly if the call pulses no start coil that is the reset coil |
| PlcClient.LawIffResetApart | plc_core/config.py:54-101 | The law holds for all runs of calls exactly if the reset coil is no start coil, which the constructor does not check |
| PlcClient.FailedChangeLeavesOneCoil | plc_core/modbus_client.py:157-172 | Whatever write fails, with or without effect, at most one coil stays on |
| PlcClient.FailedChangeLatchesInOrder | plc_core/modbus_client.py:234-257 | A state change that fails behind its reset has latched exactly the outputs of the first labels, in their order, up to the failing write |
| PlcClient.FailedPulseLeaves | plc_core/modbus_client.py:174-207 | Which start coils a pulse of all of them leaves on when a write fails: those written so far if it was switching on, those not yet written if it was switching off; it goes through exactly when no write fails |
| RigidTransforms.InvIsInverse | scripts/compute_handeye_opencv.py:64-68 | The closed form is a two-sided inverse of every rigid transform |
| RigidTransforms.InvIsInverseIff | scripts/compute_fk_and_calibrate.py:79-83 | It inverts exactly the matrices with orthonormal columns |
| RigidTransforms.RigidCompose | scripts/compute_fk_and_calibrate.py:86-100 | Rigid transforms, determinant one included, compose to rigid transforms |
| RigidTransforms.ForwardKinematics | scripts/compute_fk_and_calibrate.py:86-100 | For every joint list the loop gives the chain of its joints, a rigid transform that sends every point through the joints in turn |
| RigidTransforms.RpyTurns | scripts/compute_fk_and_calibrate.py:67-69 | Roll, pitch and yaw turn a point about x, then y, then z |
| RigidTransforms.ChainMoves | scripts/compute_fk_and_calibrate.py:86-100 | The pose sends a point through the last joint first: its angle, its mounting, its offset, and so on to the first |
| RigidTransforms.ValidateInHand | scripts/compute_handeye_opencv.py:103-126 | One residual for each pair of consecutive samples; raises exactly without two samples or with too few marker poses |
| RigidTransforms.ValidateToHand | scripts/compute_fk_and_calibrate.py:160-176 | The same for the other form |
| RigidTransforms.InHandIff | scripts/compute_handeye_opencv.py:103-126 | Two samples solve AX = XB exactly when they see one target fixed in the base frame |
| RigidTransforms.ToHandIff | scripts/compute_fk_and_calibrate.py:160-176 | Two samples solve AX = XB exactly when they see one target fixed on the gripper |
| RigidTransforms.ResidualIsZeroIff | scripts/compute_handeye_opencv.py:121-125 | A residual is zero exactly if the two sides of AX = XB have the same translation |
| RigidTransforms.SolvedIff | scripts/compute_handeye_opencv.py:103-126 | A zero residual and equal rotations are exactly AX = XB |
| RigidTransforms.FixedTargetInHandIff | scripts/compute_handeye_opencv.py:103-126 | For every list of samples: all residuals are zero and all rotations agree exactly if every sample sees one target in the base frame |
| RigidTransforms.FixedTargetToHandIff | scripts/compute_fk_and_calibrate.py:160-176 | For every list of samples: the same with one target on the gripper |
| RigidTransforms.ZeroResidualIsNotEnough | scripts/compute_handeye_opencv.py:121-125 | The rotations are needed: zero residuals alone do not imply one fixed target |

## Left out

- Sockets, reconnecting, re-injection of the server and the handshake: a session starts with empty buffers.
- The JSON protocol and state packets of the gripper link: their payloads carry no promise beyond the framing proved for the binary protocol.
- AckLink.OkMeansCarriedOut: ids are allocated one by one; the code reads and increments the counter without a lock, and two threads that get the same id are not modelled. Pings share the channel but touch no waiter.
- Decoding of the error text of an acknowledgement to characters.
- PacketStream.ServerReceiver.ReceivePackets: an exception inside the receive loop ends the loop like an empty select; it is not a separate case.
- DirectStreaming.DeltaMeansFull: the queue and worker thread of the non-streaming mode.
- SQLite itself, schema validation and busy timeouts: a write transaction is one atomic step, a read outside one may be stale.
- The threads of the gripper link, of one custody run and of the action server are state machines over atomic steps, not objects: a Dafny method runs alone, so their updates in place are not captured.
- Update and gate requests arrive stripped, with values outside the allowed ones as None; blank notes are blank in the ASCII spaces only.
- The checks of a public rejection call on tool id, track and text length; its transaction is that of AppendRejection.
- Drawer feasibility, system events and the slot columns of the tool table: no property beyond one call.
- FodMonitor.AlarmIsRaisedInTime: polls come in time order; the clock of the machine does not run backwards.
- VisualServo.ArmReachesHandle: exact moves and a target that does not move; floating-point rounding.
- The behaviour tree between intent and action, the vision and hand-pose steps as such: a step succeeds or fails.
- RecordedCustody.RecordNeverAhead: the socket fetch and return sequences; the handover sequences mark the pick before the grip and are not wired to the database.
- MotionServer.SucceedsIff: what a stop request does to the motion under way is whether the step then ends well. The messages at the start and at the end of a callback are one step each, and an exception counts as a failed step.
- PlcConfig.PostInit: upper-casing and stripping are those of ASCII; the flat ROS parameter form of the outputs.
- PlcClient.LatchesAreHistory: the ladder scans between two writes and latches exactly the start coils; register and watchdog reads.
- MotionSequences.DrawerIsWorked: the drawer's handle is at the places the waypoints are named after; the second version of the drawer waypoints.
- RigidTransforms.ValidateInHand: residuals are kept squared, mean and maximum of the list are not; sample filtering, the solvers and every file format are foreign numerics.
- ROS publishers, services, executors, launch files, dashboards and waypoint values.
