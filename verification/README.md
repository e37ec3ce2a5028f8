# Verification of the robot control sources

A Dafny model of the parts of this repository that carry an algorithm, with proofs of what they promise:
the JSON document layer (comparison, pointers, patch, diff, merge, destruction, the insertion-ordered map),
the Modbus RTU master over an unreliable serial line, the timed batch scheduler, the re-initialisation
cooldown under thread interleaving, the hand frame encoder, the orientation conversions of the scan server,
and the axis power-on loop. `dafny verify dfyconfig.toml` checks the whole project.

## How the model is organised

Code that computes a value is a function; code that changes state is a class whose methods are proved equal to
a function of the old state, and the properties are then proved about that function. Each file is one module.

- `Wrappers`, `Digits`: optional values, results; numerals in a base, shared by pointers and the hand encoder.
- `JsonValue`, `JsonTransitivity`, `JsonPointer`, `JsonPatch`, `JsonDiff`, `JsonMerge`, `JsonDestroy`: the map-backed `json`. Integers
  are 64-bit signed or unsigned, floating-point numbers are finite reals, infinities or NaN, and comparing an
  integer with a floating-point number rounds it to 53 bits first, as the conversion to `double` does. Pointers
  are token sequences, and their text form is proved inverse to them.
- `OrderedMap`: the vector-backed map behind `ordered_json`, with its element-shifting loops.
- `Crc16`, `ModbusRtu`: the checksum and the two retry loops, closed with a slave that follows the MODBUS
  Application Protocol V1.1b3 (sections 6.3 and 6.6) and MODBUS over Serial Line V1.02 (sections 2.5.1.2 and
  6.2.2). Per attempt the line is clean, loses the request or the reply, cuts the reply short, or alters a
  frame within two adjacent bytes.
- `MessageServer`, `RobotControl`, `LoopModes`, `MoveCommands`: the queue, `LoopControl` as a machine of atomic steps
  interleaved with client calls, its stop and pause, and the commands sent to the robot. `robot_ok`, the movement calls and the idle state of each axis group are oracles.
- `Cooldown`: the compare-exchange loop as a machine over any number of threads. Loads may return any value in
  the modification order not older than what the thread has seen, and swaps may fail spuriously.
- `Inspire`: the chain binary text, hexadecimal text, number, bytes.
- `Rotation`, `Trigonometry`, `EulerAngles`, `RotationVector`, `ShortestVector`, `Quaternion`, `EulerVector`,
  `BscanServer`, `SecondPass`: exact reals. `sin`,
  `cos`, `sqrt`, `atan2` and pi are arbitrary functions constrained by the predicate `Trigonometry.Laws`, which
  lists elementary facts true of the mathematical functions; nothing else about them is used.
- `PowerDemo`: the polling loop over an arbitrary sequence of status words, and over a drive that follows the
  CiA 402 (IEC 61800-7-201) state machine.

## What was found

Where a natural property fails, there is an input on which it does, and the condition under which it holds.

- `diff` followed by `patch` always succeeds, and gives a value equal to the target exactly when the target holds
  no NaN and no discarded value; the result is the target itself where number kinds cannot interfere. A diff touches
  nothing that is equal.
- `operator==` is not transitive across number kinds. It is over a middle value exactly if that is sharp: negative
  signed integers, unsigned integers from 2^63 on and floating-point numbers that two integers round to are not.
- `patch_inplace` is not atomic. A single operation that fails leaves a trace exactly if it is a move with an existing
  source, and a patch of tests before one operation exactly then too. Longer patches leave what their operations before
  the failing one did; tests in front are not necessary, as whether a later operation can fail depends on what the
  earlier ones leave.
- `add` and `remove` below a primitive value silently succeed, although RFC 6902 sections 4.1 and 4.2 ask for a parent
  that can hold members and for an existing target.
- While `robot_ok` answers yes, a lasting stop or pause is acted upon exactly if the loop runs and has a message to go
  on with, or is just being entered. A loop that runs dry ticks on without asking for the mode; a loop that waits for a start keeps the messages
  pushed before the stop and fetches them at the next start. A pause ends under continue, which issues the batch it
  held, and under stop; no other mode ends it, not even start. Without a mode change it ends
  exactly when `robot_ok` answers no and then yes. A fetched batch of a kind that `is_run` does not know blocks the loop
  until a stop.
- Synchronous start implies that every command was accepted exactly for batches without a joint-space command for both
  arms.
- Two hand frames agree exactly when address, id and values agree modulo 2^16, 2^14 and 2^16.
- Orientation is kept by the waypoint loop except for pitches within 1e-6 of the vertical that are not vertical.
  A second run over the same buffer reads angles as a rotation vector; it keeps exactly the waypoints whose angles turn
  about at most one axis.
- The rotation vector of a rotation within the half-turn window, but not exactly a half turn, never rebuilds it: it is
  always a little longer than pi. Outside the windows it is the one shorter than pi.

Where code and documentation differ the code is followed: the comment in `operation_add` says that a parent cannot
be primitive, but it can. The default build (CMakeLists.txt:10-25 selects RelWithDebInfo with NDEBUG) leaves the
assertion it then meets out, and the model follows that build: nothing is added. In `replace` and `test`
the member `value` is fetched before the location, an order that C++11 leaves open.

## Model

| member | source | states |
|---|---|---|
| `JsonValue.EqReflexive` | include/nlohmann/json.hpp:3608-3717 | A value equals itself exactly when no NaN and no discarded value occurs in it |
| `JsonValue.EqSymmetric` | include/nlohmann/json.hpp:3608-3717 | `operator==` is symmetric over all pairs of kinds, mixed numbers included |
| `JsonValue.EqComparable` | include/nlohmann/json.hpp:3608-3717 | Whatever is equal to something holds no NaN and no discarded value |
| `JsonValue.EqIsIdentity` | include/nlohmann/json.hpp:3608-3717 | Equal values are the same value wherever number kinds cannot interfere: if either holds no number at all, or all numbers of both are of one kind |
| `JsonTransitivity.EqNumbers` | include/nlohmann/json.hpp:3631-3671 | Two numbers are equal exactly if: of one kind, they are the same (and no NaN); of the two integer kinds, they agree modulo 2^64; an integer and a floating-point number, the first rounds to the second |
| `JsonTransitivity.RoundIsNearestDouble` | include/nlohmann/json.hpp:3648-3663 | The cast of a whole number gives a number of at most 53 significant bits, no other such number is nearer, and of two equally near ones it takes the one with the even significand |
| `JsonValue.EqNotTransitive` | include/nlohmann/json.hpp:3608-3717 | Two different integers that both equal one floating-point number |
| `JsonTransitivity.RoundOrder` | include/nlohmann/json.hpp:3648-3663 | Casting an integer to `double` keeps the order of integers |
| `JsonTransitivity.RoundTwice` | include/nlohmann/json.hpp:3648-3663 | Casting a whole `double` back and again changes nothing |
| `JsonTransitivity.CrowdedIff` | include/nlohmann/json.hpp:3648-3663 | A test of three neighbouring integers tells whether two different integers equal one floating-point number |
| `JsonTransitivity.TransitiveIffSharp` | include/nlohmann/json.hpp:3608-3717 | `operator==` is transitive over a middle value, for all outer values, if and only if the value is sharp: anywhere inside no negative signed and no large unsigned integer, and no floating-point number that two integers round to; or else something incomparable |
| `JsonTransitivity.SmallFloatsSharp` | include/nlohmann/json.hpp:3648-3663 | Every floating-point number below 2^53 is sharp |
| `JsonValue.SortedKeysAscend` | include/nlohmann/json.hpp:5092-5135 | The keys are visited in ascending order, as iterating a `std::map` does |
| `JsonValue.KeyAtMostIff` | include/nlohmann/json.hpp:5092-5135 | The order of keys is decided where two keys part: there the lesser one ends or has the lesser code unit |
| `JsonPointer.UnescapeEscape` | include/nlohmann/detail/string_escape.hpp:31-69 | Unescaping undoes escaping for every string, through the two replacement passes |
| `JsonPointer.EscapeUnescape` | include/nlohmann/detail/string_escape.hpp:31-69 | Escaping undoes unescaping on every token that the parser lets through |
| `JsonPointer.RfcExamples` | include/nlohmann/detail/string_escape.hpp:31-69 | Pointer texts of RFC 6901, section 5, with an escaped slash and an escaped tilde |
| `JsonPointer.SplitIffText` | include/nlohmann/detail/json_pointer.hpp:666-724 | A text parses to a pointer exactly when it is that pointer's text; the parser rejects everything else |
| `JsonPointer.SplitSucceedsIff` | include/nlohmann/detail/json_pointer.hpp:666-724 | A text parses exactly if it is empty, or starts with a slash and every tilde in it begins an escape sequence; otherwise the exception is 107 for a missing slash and 108 for a tilde |
| `JsonPointer.ArrayIndexIffDecimal` | include/nlohmann/detail/json_pointer.hpp:214-249 | An array token is accepted as n exactly when it is n's shortest decimal numeral and n is below the largest size |
| `JsonPointer.ArrayIndexErrors` | include/nlohmann/detail/json_pointer.hpp:214-249 | Which exception a token gets that is no index: 106 for a leading zero, 109 for a leading non-digit, 410 for the largest number itself, 404 for everything else |
| `JsonPointer.ArrayIndexInjective` | include/nlohmann/detail/json_pointer.hpp:214-249 | No two tokens name one array place |
| `JsonPointer.AtConcat` | include/nlohmann/detail/json_pointer.hpp:422-470 | Looking up a concatenated pointer is looking up in two stages, with the first error kept |
| `JsonPointer.AtFailsIff` | include/nlohmann/detail/json_pointer.hpp:422-470 | A look-up fails with an exception exactly if at some token, all before it being found, the value there lacks that child for the reason the exception names |
| `JsonPointer.AtPut` | include/nlohmann/detail/json_pointer.hpp:422-470 | What is assigned through `at` is what `at` then finds |
| `JsonPointer.AtPutApart` | include/nlohmann/detail/json_pointer.hpp:422-470 | Assigning through one pointer changes nothing at any pointer that is neither above nor below it |
| `JsonPatch.Document.OperationAdd` | include/nlohmann/json.hpp:4784-4849 | The in-place add gives the document and the error of the specification function, every branch included |
| `JsonPatch.Document.OperationRemove` | include/nlohmann/json.hpp:4852-4878 | The same for remove |
| `JsonPatch.Document.ApplyDecoded` | include/nlohmann/json.hpp:4929-5010 | The same for each of the six operations, with move as remove then add |
| `JsonPatch.Document.PatchInplace` | include/nlohmann/json.hpp:4747-5014 | The loop over the patch gives the state and the error of the specification, for malformed patches too |
| `JsonPatch.TopCheckRedundant` | include/nlohmann/json.hpp:4793-4804 | The check of the topmost element never changes the outcome, error included |
| `JsonPatch.AddSucceedsIff` | include/nlohmann/json.hpp:4784-4849 | Add succeeds exactly at the root, below an existing parent that is no array, and in an array at the end or at an index up to its size |
| `JsonPatch.AddStoresIff` | include/nlohmann/json.hpp:4784-4849 | A successful add can be read back at its pointer exactly when the parent is no primitive value and the place is not a dash in an array |
| `JsonPatch.AddBelowPrimitive` | include/nlohmann/json.hpp:4838-4847 | A concrete add that reports success and adds nothing |
| `JsonPatch.AddKeepsOthers` | include/nlohmann/json.hpp:4784-4849 | Adding below an object, or below null, leaves every pointer apart from the new member as it was |
| `JsonPatch.AddFailsAsAt` | include/nlohmann/json.hpp:4784-4849 | A failing add fails with the exception that looking up its pointer gives |
| `JsonPatch.TestPassesIff` | include/nlohmann/json.hpp:4982-5003 | Where number kinds cannot interfere a test passes exactly if the look-up finds the very value it names; a missing location and a different value give 501 |
| `JsonPatch.ReplaceThenTest` | include/nlohmann/json.hpp:4943-5003 | After a replacement a test compares with the new value: equal passes, unequal gives 501, and testing for what was just written passes exactly if that is comparable |
| `JsonPatch.RemoveThenTest` | include/nlohmann/json.hpp:4937-5003 | After a removal from an object every test of the removed member gives 501 |
| `JsonPatch.ReplaceIsRemoveAdd` | include/nlohmann/json.hpp:4943-4948 | Replacing an existing value is removing it and adding at the same place (RFC 6902, section 4.3), in arrays too, exactly below the root |
| `JsonPatch.MoveIsRemoveAdd` | include/nlohmann/json.hpp:4950-4980 | A move is a removal and then an add of what was found at its source, a copy is that add alone (RFC 6902, sections 4.4 and 4.5) |
| `JsonPatch.CopyStoresIff` | include/nlohmann/json.hpp:4967-4980 | A successful copy leaves at its target what was found at its source exactly where an add can be read back |
| `JsonPatch.MoveStoresIff` | include/nlohmann/json.hpp:4950-4965 | So does a move, judged in the document without its source |
| `JsonPatch.FailedOpChangesIff` | include/nlohmann/json.hpp:4929-5010 | A failing operation changes the document if and only if it is a move whose source exists below the root, and then only by removing the source |
| `JsonPatch.FailingPatchStopsAt` | include/nlohmann/json.hpp:4886-5012 | A failing patch leaves what the operations before the failing one produced, less the source if that one is such a move |
| `JsonPatch.FailingPatchChanges` | include/nlohmann/json.hpp:4886-5012 | A concrete patch that fails and has changed the document |
| `JsonPatch.TestsFirstChangesIff` | include/nlohmann/json.hpp:4886-5012 | A failing patch with only tests before its last operation changes the document if and only if the tests pass and the last is a move whose source exists |
| `JsonPatch.LateTestKeepsChange` | include/nlohmann/json.hpp:4982-5001 | A patch that ends in a failing test keeps exactly the change of the operations before |
| `JsonPatch.RootAddNeverFails` | include/nlohmann/json.hpp:4786-4791 | Tests in front are not necessary: before a final add at the root any operation but a move fails without a trace |
| `JsonPatch.OpUnder` | include/nlohmann/json.hpp:4929-5010 | One operation below a base acts as the shortened operation on the value there, errors included |
| `JsonPatch.Locality` | include/nlohmann/json.hpp:4747-5014 | A patch whose pointers all extend a base acts as the shortened patch on the value there, and every pointer apart from the base reads as before |
| `JsonPatch.RootAddIsLocalUnlessArray` | include/nlohmann/json.hpp:4784-4849 | The add that `Locality` leaves out, at the very base, is local exactly when the parent is no array |
| `JsonPatch.RemoveUndoesAdd` | include/nlohmann/json.hpp:4784-4878 | Removing what was just added restores the document exactly when the place was fresh and not named by a dash |
| `JsonPatch.RemoveSucceedsIff` | include/nlohmann/json.hpp:4852-4878 | Remove succeeds exactly when its target exists or its parent is a primitive value |
| `JsonPatch.RemoveFailsAsAt` | include/nlohmann/json.hpp:4852-4878 | A failing remove fails with the exception that looking up its pointer gives, but for the root (405) and the place behind an array (404) |
| `JsonPatch.RemoveBelowPrimitive` | include/nlohmann/json.hpp:4859-4878 | A concrete remove of a missing target that reports success |
| `JsonPatch.DecodeEncode` | include/nlohmann/json.hpp:4889-4983 | Reading an operation object back gives the operation written |
| `JsonPatch.DecodeObjects` | include/nlohmann/json.hpp:4753-4782 | The six operation objects of RFC 6902, section 4, member names and operation names written out, stand for the six operations |
| `JsonPatch.DecodeIff` | include/nlohmann/json.hpp:4889-4983 | A patch element stands for an operation exactly if it holds the members of that operation's written form, whatever else it holds |
| `JsonPatch.DecodeErrors` | include/nlohmann/json.hpp:4889-4983 | An element that stands for none gives 104 exactly if it is no object, and else 105, or 107 or 108 for a pointer that does not parse |
| `JsonPatch.MalformedElementStops` | include/nlohmann/json.hpp:4880-4927 | A malformed element ends the patch after the operations before it have been applied; a patch that is no array does nothing |
| `JsonPatch.PatchEncoded` | include/nlohmann/json.hpp:4886-5012 | Running the written form of a patch is running its operations |
| `JsonDiff.DiffArrays` | include/nlohmann/json.hpp:5046-5090 | The array branch emits, with its text paths, exactly the specified patch: common part, descending removals, appends |
| `JsonDiff.DiffObjects` | include/nlohmann/json.hpp:5092-5135 | The object branch emits exactly the specified patch: members of the source in key order, then the additions |
| `JsonDiff.ComputeDiff` | include/nlohmann/json.hpp:5028-5158 | The recursive code emits exactly the specified patch for any starting path |
| `JsonDiff.DiffInside` | include/nlohmann/json.hpp:5028-5158 | Every operation a diff contains can be relocated under a base |
| `JsonDiff.ApplyDiff` | include/nlohmann/json.hpp:5028-5158 | Applying the diff never fails and leaves a fully described merge of source and target |
| `JsonDiff.MergedEqTarget` | include/nlohmann/json.hpp:5028-5158 | That merge equals the target exactly when the target holds no NaN and no discarded value |
| `JsonDiff.DiffRoundTrip` | include/nlohmann/json.hpp:5016-5158 | Patching the source with its diff never fails and gives a value equal to the target, if and only if the target is comparable |
| `JsonDiff.DiffRoundTripExact` | include/nlohmann/json.hpp:5016-5158 | Where number kinds cannot interfere patching with the diff gives the very target, not just an equal value |
| `JsonDiff.DiffIsCalledFor` | include/nlohmann/json.hpp:5028-5158 | A diff touches nothing that is equal: at every depth it replaces only values that are not alike, removes only what the target lacks, and adds only what the source lacks |
| `JsonDiff.EmptyDiffIffEq` | include/nlohmann/json.hpp:5034-5038 | The diff is empty exactly for equal values |
| `JsonDiff.DiffThenPatch` | include/nlohmann/json.hpp:5016-5158 | The two pieces of code run one after the other meet both round trips |
| `JsonMerge.MergeIsRfc` | include/nlohmann/json.hpp:5170-5194 | The code's recursion is the pseudo-code of RFC 7396 section 2, an undefined target behaving as null |
| `JsonMerge.MembersAreRfc` | include/nlohmann/json.hpp:5178-5188 | The loop over the members gives the same object in whatever order they come |
| `JsonMerge.MergeIdempotent` | include/nlohmann/json.hpp:5170-5194 | Applying a merge patch twice is applying it once |
| `JsonMerge.MergeReproducesIff` | include/nlohmann/json.hpp:5170-5194 | Merging into a non-object reproduces the patch exactly when no member asks for deletion |
| `JsonMerge.MergeKeepsNoNulls` | include/nlohmann/json.hpp:5170-5194 | A merge never introduces a null member |
| `JsonMerge.RfcExamples` | include/nlohmann/json.hpp:5170-5194 | Examples of RFC 7396, appendix A: unnamed members stay, null deletes at every depth, an array counts as an empty object |
| `JsonMerge.MergePatch` | include/nlohmann/json.hpp:5170-5194 | The loop with its recursive calls computes the RFC function |
| `JsonDestroy.StackShrinks` | include/nlohmann/json.hpp:581-614 | Replacing the top of the stack by its children lowers the total number of nodes |
| `JsonDestroy.Destroy` | include/nlohmann/json.hpp:557-616 | The loop terminates and releases values in the specified order |
| `JsonDestroy.DestroyReleasesEverything` | include/nlohmann/json.hpp:557-616 | The released items are exactly the values strictly inside the root, each once, each without children |
| `OrderedMap.OrderedMap.Find` | include/nlohmann/ordered_map.hpp:286-296 | The position of the key, or the end exactly when the key is absent |
| `OrderedMap.OrderedMap.At` | include/nlohmann/ordered_map.hpp:106-117 | The mapped value, or the exception exactly when the key is absent |
| `OrderedMap.OrderedMap.Emplace` | include/nlohmann/ordered_map.hpp:54-65 | Refines insertion at the end of an abstract ordered map; a present key keeps place and value |
| `OrderedMap.OrderedMap.InsertAll` | include/nlohmann/ordered_map.hpp:329-353 | Inserting a range refines inserting its pairs in turn |
| `OrderedMap.OrderedMap.EraseKey` | include/nlohmann/ordered_map.hpp:162-179 | The shifting loop refines removal of one key, with the count returned |
| `OrderedMap.OrderedMap.EraseRange` | include/nlohmann/ordered_map.hpp:207-258 | The shifting loop removes exactly the range and keeps the other pairs in order |
| `OrderedMap.OrderedMap.Replay` | include/nlohmann/ordered_map.hpp:54-258 | Any sequence of calls on a fresh map refines the abstract run |
| `OrderedMap.RunWellFormed` | include/nlohmann/ordered_map.hpp:54-258 | Keys are distinct, and are the keys of the contents, after every sequence of calls |
| `OrderedMap.OrderIsInsertionOrder` | include/nlohmann/ordered_map.hpp:54-258 | After every sequence of calls keys stand in the order of the calls that last inserted them |
| `OrderedMap.RunStores` | include/nlohmann/ordered_map.hpp:52-91 | After every sequence of calls a key is present exactly if it has an insertion that was not undone, and it maps to the value of the call that inserted it when it was absent, throughout the calls since |
| `OrderedMap.StepStores` | include/nlohmann/ordered_map.hpp:52-272 | What one call adds, what it removes, and that every other key keeps its value |
| `OrderedMap.RangeIsInserts` | include/nlohmann/ordered_map.hpp:346-353 | Inserting a range is a run of single insertions, the first of two pairs with one key winning |
| `OrderedMap.ErasedIsCut` | include/nlohmann/ordered_map.hpp:162-258 | Erasing a key is erasing the one-element range where it stands |
| `Crc16.TableIsShift8` | src/JeComm/dh_modbus_rtu.cpp:127-160 | Each of the 256 table entries is its index after eight bit steps with polynomial 0xA001 |
| `Crc16.TableStep` | src/JeComm/dh_modbus_rtu.cpp:167-169 | One table look-up is the eight bit steps of its byte |
| `Crc16.CRC16` | src/JeComm/dh_modbus_rtu.cpp:125-172 | The table-driven loop computes the bit-by-bit reflected CRC for messages of every length |
| `Crc16.CheckValue` | src/JeComm/dh_modbus_rtu.cpp:125-172 | The published check value of CRC-16/MODBUS, 0x4B37 for the digits 1 to 9 |
| `Crc16.BurstDetected` | src/JeComm/dh_modbus_rtu.cpp:125-172 | Messages that differ only inside sixteen consecutive bits have different checksums |
| `Crc16.AdjacentBytesDetected` | src/JeComm/dh_modbus_rtu.cpp:125-172 | Messages that differ only within two adjacent bytes have different checksums |
| `Crc16.ResidueZeroIffSealed` | src/JeComm/dh_modbus_rtu.cpp:42-44 | A message and two more bytes leave residue zero exactly when these are its checksum, low byte first |
| `ModbusRtu.DamageDetected` | src/JeComm/dh_modbus_rtu.cpp:105-109 | A sealed frame altered within two adjacent bytes no longer leaves residue zero |
| `ModbusRtu.AcceptedIsIntact` | src/JeComm/dh_modbus_rtu.cpp:105-109 | The comparison in the read loop accepts exactly the replies with residue zero |
| `ModbusRtu.RequestForms` | src/JeComm/dh_modbus_rtu.cpp:35-84 | Which byte of a request and of a read reply carries what, high bytes first, and that each frame leaves residue zero |
| `ModbusRtu.WriteAttempt` | src/JeComm/dh_modbus_rtu.cpp:50-66 | One attempt to write is accepted exactly when the line was clean and the slave answers; accepted means stored, and nothing else ever changes |
| `ModbusRtu.ReadAttempt` | src/JeComm/dh_modbus_rtu.cpp:89-120 | One attempt to read yields exactly the register's value or nothing, and changes nothing |
| `ModbusRtu.WriteRunExact` | src/JeComm/dh_modbus_rtu.cpp:46-69 | Success exactly when the slave answers and an allowed attempt is clean; the exact number of requests |
| `ModbusRtu.ReadRunExact` | src/JeComm/dh_modbus_rtu.cpp:87-123 | The same for reading, with the value returned and the slave unchanged |
| `ModbusRtu.WriteThenRead` | src/JeComm/dh_modbus_rtu.cpp:20-123 | A successful write then a successful read of the register returns the value written, over every behaviour of the line and for any retry limits |
| `ModbusRtu.ModbusRtuMaster.WriteRegisterFunc` | src/JeComm/dh_modbus_rtu.cpp:30-69 | The frame building and the retry loop give the specified run on the line |
| `ModbusRtu.ModbusRtuMaster.ReadRegisterFunc` | src/JeComm/dh_modbus_rtu.cpp:71-123 | The same for reading, with both buffer checks |
| `ModbusRtu.ModbusRtuMaster.WriteSingleRegister` | src/JeComm/dh_modbus_rtu.cpp:20-23 | Success exactly when one of three attempts is clean; at most three requests |
| `ModbusRtu.ModbusRtuMaster.ReadHoldingRegister` | src/JeComm/dh_modbus_rtu.cpp:25-28 | Success exactly when one of a hundred attempts is clean, and then the true value; at most a hundred requests |
| `MessageServer.BatchIsMaximal` | src/robot_control.cpp:521-534 | The batch is the one longest prefix of messages with the first time stamp |
| `MessageServer.MessageServer.GetMessageData` | src/robot_control.cpp:513-537 | The loop takes exactly that prefix and leaves the rest; on an empty queue nothing changes |
| `MessageServer.MessageServer.ClearMessageData` | src/robot_control.cpp:539-548 | Empties the queue and keeps the mode |
| `RobotControl.RunInv` | src/robot_control.cpp:79-141 | The invariant of queue, held batch, issued batches and clock holds after every interleaving |
| `RobotControl.PushedIsSent` | src/robot_control.cpp:506-511 | The recorded messages are those the clients sent since the last clear |
| `RobotControl.EveryRunConserves` | src/robot_control.cpp:79-141 | In every run, the messages sent since the last clear are those issued since, then the batch in hand, then the queue, in order; nothing is issued twice; at most one batch per tick |
| `RobotControl.TicksAreCounted` | src/robot_control.cpp:94-96 | The recorded ticks are the timer calls of the run since the loop was last entered |
| `RobotControl.EveryIssueTimely` | src/robot_control.cpp:89-111 | Every step of every run issues nothing or one batch that has one time stamp, is due, names only known kinds and idle groups, and goes out when the clock shows the stamp of the first message pushed since the last clear plus one dt per timer call since, modulo 2^64 |
| `LoopModes.StopIssuesAtMostOne` | src/robot_control.cpp:94-118 | Once the mode stays stop, at most one more batch is issued |
| `LoopModes.StopSeenIff` | src/robot_control.cpp:81-137 | From every state, while `robot_ok` answers yes and over every interleaving with pushes, a lasting stop comes to be acted upon if and only if the loop runs with a batch or a message to go on with, or one is pushed to it, or it is just being entered (asked for `robot_move_ok`, if the answer is yes); a loop that waits for a start never acts on it |
| `LoopModes.PauseEnteredIff` | src/robot_control.cpp:81-137 | The same for a lasting pause and the inner loop of the pause, except that a loop about to clear its queue goes on to wait |
| `LoopModes.EveryRunFetchesWhenNeeded` | src/robot_control.cpp:98-105 | The side condition of these two holds in every run from power-on |
| `LoopModes.WaitingNeverActs` | src/robot_control.cpp:85-88 | Under a lasting stop or pause a waiting loop keeps waiting, and keeps every message of its queue |
| `LoopModes.PauseIssuesBounded` | src/robot_control.cpp:119-137 | While the mode stays pause, at most one more batch is issued, plus one for every time `robot_ok` says no to the inner loop |
| `LoopModes.PauseHoldsIff` | src/robot_control.cpp:119-137 | The clock of a paused loop stands, and nothing is issued, if and only if `robot_ok` does not say no to the inner loop and yes to the outer one right after |
| `LoopModes.FlickerLeaksPause` | src/robot_control.cpp:122-136 | A run from power-on in which the mode is pause, nothing has been issued, and three loop steps later a batch is out |
| `LoopModes.PauseEndsIff` | src/robot_control.cpp:119-137 | While `robot_ok` answers yes a pause ends exactly under a lasting continue, at the top of the loop with clock and batch as they were, or a lasting stop, at clearing the queue; under every other mode, start included, the loop stays in it |
| `LoopModes.ContinuedRun` | src/robot_control.cpp:119-137 | A run from power-on that pauses with a batch in hand, issues nothing for as long as the pause lasts, and issues that batch after a continue, at the next tick |
| `LoopModes.EntersIff` | src/robot_control.cpp:85-91 | A waiting loop with a message in its queue comes to fetch it, under a mode that lasts, exactly if that is start |
| `LoopModes.NothingBeforeStart` | src/robot_control.cpp:85-91 | From power-on nothing is fetched or issued before some client sets start |
| `LoopModes.OtherModesRun` | src/robot_control.cpp:93-138 | Under every lasting mode but stop and pause, continue and unknown ones included, a running loop goes round and round |
| `RobotControl.ClearedNeverIssued` | src/robot_control.cpp:113-118 | No message pushed before a clear is issued after it, in any continuation |
| `LoopModes.PassesIff` | src/robot_control.cpp:340-409 | Some answers of the axis groups let a batch pass `is_run` if and only if it is due and all its kinds are known |
| `LoopModes.CheckCanIssueIff` | src/robot_control.cpp:107-111 | At the check the loop can issue the batch in hand if and only if it is due and all its kinds are known |
| `LoopModes.UnknownKindBlocks` | src/robot_control.cpp:340-409 | A fetched batch of a kind that `is_run` does not know, and everything behind it, is not issued before a stop |
| `LoopModes.StuckRun` | src/robot_control.cpp:340-409 | A run from power-on that fetches such a batch, after which nothing is issued before the next clear |
| `LoopModes.StopUnseenWhileEmpty` | src/robot_control.cpp:98-105 | While the queue stays empty the loop never reaches the mode checks, whatever the mode |
| `LoopModes.UnseenRun` | src/robot_control.cpp:98-105 | For every mode, a run from power-on after which the loop does not ask for it until a message is pushed |
| `LoopModes.StopKeepsMessage` | src/robot_control.cpp:85-91 | A run from power-on with a message and then a stop, which is never acted upon; the next start fetches that message first |
| `RobotControl.RobotControl.IsRunNow` | src/robot_control.cpp:340-409 | The switch over kinds decides exactly: the batch is due, every kind is known and every group it names is idle |
| `RobotControl.RobotControl.Advance` | src/robot_control.cpp:79-141 | Each piece of the loop's code does the machine's step |
| `MoveCommands.SendCommands` | src/robot_control.cpp:161-332 | The switch, with its one `ret` that a later answer overwrites, sends the commands of a message in order up to the first refusal that stays in `ret` |
| `MoveCommands.Move` | src/robot_control.cpp:155-338 | The commands of the batch are sent up to that refusal, and synchronous start is given exactly when there is none |
| `MoveCommands.TargetsAreGroups` | src/robot_control.cpp:161-402 | A message is sent to exactly the axis groups that `is_run` asked about for its kind, and to each once |
| `MoveCommands.KindsOfGroup` | src/robot_control.cpp:161-332 | Which command kinds each axis group takes part in |
| `MoveCommands.TargetsInOrder` | src/robot_control.cpp:161-332 | A message goes to the left arm before the right one, and then to the body from the foot up |
| `MoveCommands.KnownIffSent` | src/robot_control.cpp:161-402 | `is_run` knows exactly the kinds for which `move` sends something |
| `MoveCommands.StartMeansAcceptedIff` | src/robot_control.cpp:155-338 | A synchronous start implies, for all answers of the robot, that every command was accepted, if and only if no message is a joint-space command for both arms |
| `MoveCommands.StartDespiteRefusal` | src/robot_control.cpp:222-230 | For such a message, refusing nothing but its left arm still starts the batch |
| `Cooldown.InvStep` | src/JeComm/end_effector_device.cpp:188-212 | Each atomic step of any thread keeps the claimed stamps spaced |
| `Cooldown.RunInv` | src/JeComm/end_effector_device.cpp:184-214 | So does every interleaving of any number of threads |
| `Cooldown.ClaimsApart` | src/JeComm/end_effector_device.cpp:184-214 | Successive claims are at least 2000 ms apart, and each sends one frame |
| `Cooldown.RetriesBounded` | src/JeComm/end_effector_device.cpp:188-212 | Without spurious failures a call repeats at most once more than whole windows fit between the first claim and its own time |
| `Cooldown.DroppedIffClaimed` | src/JeComm/end_effector_device.cpp:192-198 | A command is dropped exactly if the value it loads is a claim less than 2000 ms older than its entry |
| `Cooldown.ClaimsAreEntryTimes` | src/JeComm/end_effector_device.cpp:184-205 | In every run a claim carries the clock at which its call was entered, not that of its swap |
| `Cooldown.RetryCloser` | src/JeComm/end_effector_device.cpp:188-212 | A failed swap brings the next value read at least a window closer, the measure of the loop |
| `Cooldown.EndEffectorDevice.HandlePreset99` | src/JeComm/end_effector_device.cpp:184-214 | With other threads claiming between its accesses, the call ends having claimed and sent one frame, or having met a recent claim |
| `Inspire.EncodeForm` | src/inspire.cpp:62-116 | Encoding fails exactly for addresses that vanish modulo 2^16; otherwise the chain of texts keeps the number the prefix bits denote |
| `Inspire.StrippedAddress` | src/inspire.cpp:63-65 | Cutting the 16-bit text at its first one leaves the shortest binary numeral of the address |
| `Inspire.PrefixLength` | src/inspire.cpp:86-94 | Three prefix bytes for addresses of up to eight bits, four for longer ones, whatever the id |
| `Inspire.DecodeEncode` | src/inspire.cpp:97-116 | A frame read back by length parity gives the address, id and values modulo 2^16, 2^14 and 2^16 |
| `Inspire.EncodingInjective` | src/inspire.cpp:97-116 | Two frames are equal exactly when these residues are |
| `Inspire.FrameLayout` | src/inspire.cpp:62-116 | Every frame byte by byte: the prefix is the number of the command bits 10, the address and fourteen bits of id in base 256, and each value follows with its low byte first |
| `Inspire.FrameExample` | src/inspire.cpp:97-116 | The six bytes for address 1000, id 1 and value 258 |
| `Inspire.ConvertNumberToBytes` | src/inspire.cpp:86-94 | The loop gives the numeral in base 256, a single zero byte for zero |
| `Inspire.WriteRegister` | src/inspire.cpp:97-116 | The buffer the code builds is the specified frame, and the exception comes for the same addresses |
| `EulerAngles.FromEulerIsRotation` | src/BscanServer.cpp:566-577 | Every triple of angles gives an element of SO(3) |
| `EulerAngles.FromEulerIsProduct` | src/BscanServer.cpp:566-577 | The matrix is the product of the turns about z, y and x, the turn about x coming first |
| `EulerAngles.CosineOfPitch` | src/BscanServer.cpp:372-375 | The divisions by the cosine of the pitch are defined for every matrix that gets there |
| `EulerAngles.AwayFromVertical` | src/BscanServer.cpp:372-376 | The general branch reads angles that rebuild the rotation |
| `EulerAngles.AtVertical` | src/BscanServer.cpp:356-370 | At exactly plus or minus 90 degrees the singular branches are taken, and their angles rebuild the rotation |
| `EulerAngles.WindowLosesColumn` | src/BscanServer.cpp:356-370 | The singular branches lose the first column of any matrix that gets there |
| `EulerAngles.EulerRoundTrip` | src/BscanServer.cpp:354-377 | For every rotation the angles rebuild it if and only if the pitch, the angle up to a quarter turn whose sine is minus r20, is not within 1e-6 of the vertical, or the rotation is exactly vertical |
| `EulerAngles.AnglesReturnIff` | src/BscanServer.cpp:354-577 | From angles to a rotation and back gives the same angles exactly for: roll and yaw in (-pi, pi] with a pitch outside the window, or an exactly vertical pitch with yaw zero |
| `EulerAngles.ToEulerInRange` | src/BscanServer.cpp:354-377 | The angles lie within half a turn, the pitch within a quarter |
| `SecondPass.VerticalWindowInhabited` | src/BscanServer.cpp:356-357 | The window of the vertical holds a rotation that is not vertical, so the failing case of the round trip occurs |
| `SecondPass.FirstPassTurnsAway` | src/BscanServer.cpp:228-238 | For every position, a waypoint whose rotation the first pass does not keep |
| `RotationVector.RodriguesAsQuaternion` | src/BscanServer.cpp:587-593 | Rodrigues' formula is the matrix of the unit quaternion of half the angle |
| `RotationVector.FromRotationVectorIsRotation` | src/BscanServer.cpp:578-594 | Every rotation vector, short ones included, gives an element of SO(3) |
| `RotationVector.AxisLengthOf` | src/BscanServer.cpp:404-421 | The length divided by in the general branch, and that it is positive there |
| `RotationVector.GeneralBranch` | src/BscanServer.cpp:404-421 | The general branch reads a vector that rebuilds the rotation |
| `RotationVector.HalfTurnBranch` | src/BscanServer.cpp:386-402 | For exact half turns the square roots and the three sign corrections give an axis that rebuilds the rotation |
| `RotationVector.NearHalfTurnBranch` | src/BscanServer.cpp:386-402 | For every other rotation in that window the vector rebuilds something else |
| `RotationVector.RotationVectorRoundTrip` | src/BscanServer.cpp:378-422 | For every rotation the vector rebuilds it if and only if the cosine of the angle is 1, -1 or outside both windows |
| `ShortestVector.LengthIsAngle` | src/BscanServer.cpp:378-422 | The vector is as long as the angle: zero close to no turn, else the one length below pi with the cosine of the angle, and within the half-turn window from pi to at most 2e-12 more, pi exactly for half turns |
| `ShortestVector.VectorRoundTrip` | src/BscanServer.cpp:378-594 | From a rotation vector to its matrix and back gives the same vector exactly for: zero; vectors shorter than pi and not shorter than 1e-10 whose cosine is outside both windows; and of two opposite half turns the one whose last component that is not zero is positive |
| `ShortestVector.ShortestIsReported` | src/BscanServer.cpp:403-421 | A rotation outside the windows has one rotation vector shorter than pi, and that is the one read off |
| `SecondPass.TurnWindowsInhabited` | src/BscanServer.cpp:379-386 | Both windows hold rotations other than the identity and the half turns, so both failing cases occur |
| `Quaternion.QuaternionIsRotation` | src/BscanServer.cpp:595-599 | Every unit quaternion gives an element of SO(3) |
| `Quaternion.QuaternionRoundTrip` | src/BscanServer.cpp:423-433 | Converting a unit quaternion to a matrix and back gives the sign with positive scalar part, or leaves the output untouched below the threshold |
| `Quaternion.MatrixRoundTrip` | src/BscanServer.cpp:423-433 | The quaternion read off a rotation rebuilds it exactly when its scalar part reaches the threshold, or the output already held a quaternion of it |
| `Quaternion.NegatedSameRotation` | src/BscanServer.cpp:595-599 | A quaternion and its negation give one matrix |
| `BscanServer.BscanServer.ConvertWaypoints` | src/BscanServer.cpp:220-238 | The loop converts the entries in place, each exactly once, and fills the pose buffer from the converted entries; it comes to write behind that buffer exactly when there are more than 100 |
| `BscanServer.OnePassKeepsPose` | src/BscanServer.cpp:228-238 | One pass keeps the position, and the rotation if and only if it is outside the window |
| `BscanServer.ReportedMeans` | src/BscanServer.cpp:184-186 | An orientation reported by the feedback, pushed as a waypoint, means the current rotation exactly outside the windows of 1e-12 of its conversion |
| `BscanServer.ReportedDrivesBack` | src/BscanServer.cpp:184-238 | Where it does, the waypoint then drives there exactly when the rotation is outside the window of the other conversion |
| `EulerVector.ReadAsVectorIff` | src/BscanServer.cpp:566-594 | Roll, pitch and yaw in the range of the conversion, read as a rotation vector, mean the rotation they compose if and only if at most one is not zero and that one is not too short for a turn |
| `SecondPass.SecondPassKeepsIff` | src/BscanServer.cpp:228-238 | A second pass over the same buffer keeps the orientation a waypoint drives to if and only if its converted angles are of that kind |
| `SecondPass.SurvivesForever` | src/BscanServer.cpp:228-238 | Such a waypoint is unchanged by any number of further passes |
| `SecondPass.SecondPassTurnsAway` | src/BscanServer.cpp:105-114 | For every position, a waypoint whose rotation the first pass keeps and a second start over the same buffer changes |
| `PowerDemo.StateUnique` | src/PowerDemo.cpp:31-54 | No status word matches two of the masks |
| `PowerDemo.ReactByState` | src/PowerDemo.cpp:31-62 | The branch taken is that of the state shown, in whatever order the branches stand, and the last branch is for words that show none |
| `PowerDemo.AxisPower` | src/PowerDemo.cpp:5-66 | The polling loop returns the code, the control words and the number of polls of the specification |
| `PowerDemo.CodeMeans` | src/PowerDemo.cpp:5-66 | Each return code holds exactly for its situation: bad axis, enabled, timed out after 500 polls, fault reaction, fault; a failing call ends with control word 0 |
| `PowerDemo.EachMoveProgresses` | src/PowerDemo.cpp:31-62 | In every state each control word commands, by its bits, one transition towards being enabled, and a drive that obeys makes it or stands still |
| `PowerDemo.PromptDrivePowersUp` | src/PowerDemo.cpp:5-66 | A drive that obeys at once is enabled after one poll for each transition it is away, and one more |
| `PowerDemo.PowersUpUnlessStalled` | src/PowerDemo.cpp:5-66 | Closed with an obeying drive without faults, the call fails only if the drive stood still in at least 496 intervals, and otherwise succeeds in one poll per transition and per interval of standing still |

## Left out

- Library calls: robot movement, power, timers, sockets, serial ports, sleeps and logging are oracles or dropped.
- Demo programs, joystick and teaching clients, plotting scripts, the Piper client and the serial slot wrappers: parsing and clamping only.
- `ordered_json` patches: the ordered map is modelled, but `diff` and `patch` only for the map-backed `json`; equality of `ordered_json` depends on member order, which `diff` ignores.
- Binary JSON values, JSON text parsing and serialising, iterators and binary formats.
- Arrays too long for their size type: the round trip asks that the source has none, as any value in memory does.
- The inner loops of pointer splitting, pointer look-up and substring replacement are recursive functions, not loops.
- JsonDestroy.Destroy: the C++ moves values between stack and parent; the model records where each item came from and what is left in it when it is released.
- JsonMerge.MergePatch: models the assignment to `*this` by its result value.
- ModbusRtu.WriteThenRead: stale replies that arrive in a later attempt are not modelled; a read reply carries no register address, so the code cannot tell them apart. Requests to read several registers are not modelled, since this master sends none.
- `LoopControl` never returns while the robot runs, so it is modelled as a machine of atomic steps, and each step is proved against the piece of code it stands for. The queue, mode and robot reads of one loop condition are separate steps; the unlocked emptiness test of `HasMessageData` is taken as atomic.
- Inspire.WriteRegister: takes the id as the number that `stoi` reads from its text; texts that are no binary numeral are not modelled.
- The reading counterpart in `inspire.cpp` builds its address text without cutting zeros and would add only easy members.
- Rounding: orientations are over exact reals, so thresholds are compared exactly and signed zeros do not occur.
- `tr2rpy` and `rpy2tr` flags 0, 1 and 5.
- BscanServer.BscanServer.ConvertWaypoints: what happens after the first write behind the pose buffer is undefined in C++ and not modelled.
- `R_PI` in `BscanServer.cpp` is the literal 3.1415926535898; the model uses one pi for it and for the functions, so that exactly vertical pitches and exact half turns are rebuilt exactly.
- Cooldown.EndEffectorDevice.HandlePreset99: swaps do not fail spuriously, and a failing swap reads the newest value; the machine in the same module has both spurious failures and older values.
- `ordered_map` constructors from a range or an initializer list, which do not remove duplicate keys; every run starts from an empty map.
- JsonPatch.TestsFirstChangesIff: for patches with other operations before the last, the exact state after a failure is given by `FailingPatchStopsAt`, not by a condition on the operations alone.
- LoopModes.StopSeenIff: asks that `robot_ok` answers yes, and so does `PauseEnteredIff`; a no ends the loop for good, or leaves the inner loop of a pause.
- Debug builds, in which an add below a primitive value ends the process.
- Quaternion.MatrixRoundTrip: for matrices that are no rotations the square root of a negative number would be a NaN, which exact reals do not have; the same holds for the rotation vector.
- PowerDemo.PowersUpUnlessStalled: the drive makes at most one transition between two polls; optional transitions beyond CiA 402's table and the fault reset, an edge of a bit that the program never sets, are not modelled.
