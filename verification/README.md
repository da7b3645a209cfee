# Models of casual's buffers, signals, transports, configuration and small languages

casual is an XATMI middleware. This project models, in Dafny, the parts of it that are state
machines or codecs of their own, and proves what they are for. The program itself is not part
of the project; paths below are those of its repository.

| file | models |
|---|---|
| `ByteOrder.dfy`, `Division.dfy` | integers in network byte order; dividing twice |
| `Sequences.dfy` | parts of sequences |
| `FieldRecords.dfy`, `FieldLayout.dfy`, `FieldValues.dfy` | the fielded buffer as a list of records, as bytes, and as typed values |
| `FieldScan.dfy` | the scan of raw memory that builds the index |
| `FieldBuffer.dfy` | the fielded buffer itself: bytes edited in place and an index kept beside them |
| `FieldIteration.dfy`, `FieldStream.dfy` | iterating over the fields, and the round trip through named fields |
| `OrderBuffer.dfy` | the order buffer with its read cursor |
| `Signal.dfy` | pending signals: handlers and dispatchers over atomic flags and a counter |
| `Reassembly.dfy`, `IpcTransport.dfy` | cutting a message into datagrams and putting any number of interleaved messages together |
| `TcpTransport.dfy`, `TcpSender.dfy` | the resumable reader and the resumable writer over a byte stream |
| `ConfigMerge.dfy`, `ConfigModel.dfy`, `ConfigFields.dfy` | the keyed merge of configuration lists, the whole model on top of it, and what it does in terms of the fields |
| `UserModel.dfy`, `UserDefaults.dfy` | the defaults pass over the user model, and what it keeps |
| `Chronology.dfy`, `Expand.dfy`, `Argument.dfy` | duration text, `${NAME}` expansion, command-line arguments |
| `EnvironmentVariable.dfy`, `Wrappers.dfy` | a configured variable; option and result types |

Code that changes things step by step is modelled by classes and by methods with loops, each
proved equal to a function; the theorems are about those functions. Code made of expressions
is modelled by functions. `dafny verify dfyconfig.toml` checks everything.

## Where the code does not keep the general promise

Each of these is stated as a lemma, most with the exact condition.

* `casual_field_remove_id` reports success for an id that is not above 0 and removes nothing,
  also when raw memory has brought such fields (`FieldBuffer.Buffer.RemoveId`).
* `casual_field_next` never comes to an end when a field has the id 0, which raw memory can
  hold, because that id means "start again" (`FieldIteration.WalkEnds`).
* The scan of raw memory takes sizes of any sign: some memory with negative sizes is accepted
  although it is no list of records, and some is scanned for ever (`FieldScan.IndexedExactly`,
  `FieldScan.AcceptsNegative`, `FieldScan.NeverEnds`).
* Reassembly of a message forgets the second half of an unhandled range that a part splits,
  unless that range is the last one; the message then counts as complete too early. Parts in
  order never do this (`Reassembly.AddIsExact`, `Reassembly.OutOfOrderLoses`). The order of
  the ranges is the one `std::partition` leaves, which the standard does not fix; the lemmas
  hold for all of them.
* A dispatch can find nothing while an unmasked signal is pending, if another dispatch holds
  the counter at that moment (`SignalProtocol.ConcurrentDispatchMisses`, with the condition in
  `SignalProtocol.GivesUpExactly` and `SignalProtocol.DispatchExactly`).
* A TCP message without payload raises "unavailable" at the receiver when its header is whole,
  because a read for no bytes looks like the peer's shutdown; a message of type 0 is never
  complete, and a blocking send of one never returns. Nothing behind such a message in the
  stream is delivered either (`TcpTransport.DeliveredExactly`, `TcpTransport.DeliversPrefix`,
  `TcpSender.Sender.SendBlocking`).
* A TCP sender whose socket takes a part of the header looks for the rest at the wrong place,
  because it adds the offset to a pointer to whole headers (`TcpSender.SentExactly`,
  `TcpSender.HeaderInTwo`).
* Merging a configuration into itself repeats every entity whose alias or name is empty
  (`ConfigModel.PlusIdempotent`). In lists whose entities are replaced, merging three is not
  associative when the middle one has a key twice and the last one has it with another last
  entry, and only then (`ConfigMerge.ReplaceAssociatesExactly`, `ConfigModel.PlusAssociatesExactly`,
  `ConfigModel.DuplicatesDoNotAssociate`).
* A negative duration prints as text that does not parse (`Chronology.NegativeDoesNotParse`).
* Binary data in the order buffer whose stored size is negative moves the cursor backwards,
  with success, and as far as before the start of the memory (`OrderBuffer.GetsOnExactly`,
  `OrderBuffer.StaysInsideExactly`, `OrderBuffer.GoesBefore`). One so large that it overflows
  when it is added to its place has no defined outcome (`OrderBuffer.TooLarge`). Neither can be
  added, but memory from elsewhere can hold them.
* An argument group that must be used can never be valid, because a group does not count its
  uses, and neither can an option that must be used twice, because its first use is refused
  (`Argument.ValidatesExactly`, `Argument.MandatoryGroupFails`, `Argument.MandatoryTwiceFails`).
  How often options inside a group must be used is not validated at all
  (`Argument.NestedUsesDoNotMatter`).
* The normalisation of the user model does not keep everything the user has set: a queue
  group's deprecated name is moved into a missing alias and leaves an empty one, a deprecated
  default environment that is needed is moved away, and an alias of a server or executable
  that is set to nothing is replaced (`UserDefaults.KeptExactly`, `UserDefaults.NameIsLost`,
  `UserDefaults.DefaultEnvironmentIsLost`, `UserDefaults.EmptyAliasIsLost`). What moving leaves
  of a string is taken to be empty, as it is in practice; the standard leaves it open.

## Model

| member | source | states |
|---|---|---|
| `ByteOrder.DecodeEncode` | middleware/common/source/network/byteorder.cpp:139-180 | for every width, a number that fits comes back from its big-endian two's complement bytes |
| `ByteOrder.EncodeDecode` | middleware/common/source/network/byteorder.cpp:139-180 | for every byte string, the number it decodes to encodes to those very bytes, so no two strings decode alike |
| `ByteOrder.UnsignedByteAt` | middleware/common/source/network/byteorder.cpp:139-180 | byte i of a number in w bytes is the number divided by 256 to the power w - 1 - i, modulo 256, so the most significant byte comes first |
| `ByteOrder.ByteAt` | middleware/common/source/network/byteorder.cpp:139-180 | the same for numbers in two's complement, negative ones included, at every width |
| `ByteOrder.DecodeEncodeLong` | middleware/common/source/network/byteorder.cpp:164-168 | every 64-bit signed integer survives host to network to host |
| `ByteOrder.EncodeDecodeLong` | middleware/common/source/network/byteorder.cpp:164-168 | every eight bytes survive network to host to network |
| `ByteOrder.LongByteAt` | middleware/common/source/network/byteorder.cpp:164-168 | each of the eight bytes of a long, negative or not, by its value and its place |
| `FieldRecords.AppendValues` | middleware/buffer/source/field.cpp:275-301 | an append adds one value at the end of its own id and changes no other id |
| `FieldRecords.UpdateValues` | middleware/buffer/source/field.cpp:509-553 | an update changes exactly the k-th value of its id; every other (id, occurrence) keeps its bytes, whatever the sizes |
| `FieldRecords.RemoveValues` | middleware/buffer/source/field.cpp:417-457 | a removal takes out exactly the k-th value of its id; later occurrences move up by one, other ids keep all |
| `FieldRecords.OffsetsAscend` | middleware/buffer/source/field.cpp:91-99 | the offsets of an id are strictly ascending |
| `FieldRecords.OffsetsInside` | middleware/buffer/source/field.cpp:91-99 | every offset leaves room for a whole header inside the memory |
| `FieldRecords.OffsetOfPosition` | middleware/buffer/source/field.cpp:352-356 | the k-th offset of an id is the byte position where its k-th record starts |
| `FieldRecords.EditSizes` | middleware/buffer/source/field.cpp:428-430 | replacing or removing one record changes the size of the memory by exactly the difference |
| `FieldRecords.AppendIndex` | middleware/buffer/source/field.cpp:291-292 | pushing the old size to the index gives the index that a scan of the appended memory builds |
| `FieldRecords.UpdateIndex` | middleware/buffer/source/field.cpp:542-551 | shifting every offset beyond the field by the difference in size gives the index that a scan of the updated memory builds |
| `FieldRecords.RemoveIndex` | middleware/buffer/source/field.cpp:432-455 | dropping the entry (and the id with its last entry) and shifting the offsets beyond it gives the index that a scan of the shortened memory builds |
| `FieldLayout.ParseMemory` | middleware/buffer/source/field.cpp:91-102 | a layout is unambiguous: the records can be read back from the bytes alone |
| `FieldLayout.MemoryParse` | middleware/buffer/source/field.cpp:91-102 | bytes that scan without error are exactly the layout of the records found |
| `FieldLayout.ParseAfter` | middleware/buffer/source/field.cpp:91-99 | whole records in front do not influence how the bytes behind them are scanned |
| `FieldLayout.RecordAtOffset` | middleware/buffer/source/field.cpp:358-366 | at every offset of the index lie the header and the data of the record it stands for |
| `FieldLayout.HeaderAtOffset` | middleware/buffer/source/field.cpp:93-96 | at every offset of an id's index entry the memory holds that id |
| `FieldLayout.ExchangeData` | middleware/buffer/source/field.cpp:523-535 | erase, insert and overwriting the size leave the bytes before and after alone and put the new size and data between |
| `FieldLayout.AppendMemory` | middleware/buffer/source/field.cpp:275-292 | id, size and data appended one after another are the layout of the appended record |
| `FieldLayout.AppendedBytes` | middleware/buffer/source/field.cpp:275-292 | behind the old memory, bytes 0 to 7 are the id and bytes 8 to 15 the size, most significant byte first, and then comes the data |
| `FieldLayout.UpdateMemory` | middleware/buffer/source/field.cpp:512-535 | the in-place exchange gives the layout of the updated records, growing or shrinking |
| `FieldLayout.RemoveMemory` | middleware/buffer/source/field.cpp:424-430 | the erased range is exactly one record: what remains is the layout of the other records |
| `FieldValues.ValueOfBytes` | middleware/buffer/source/field.cpp:267-315 | every typed value reads back from the bytes it is stored as |
| `FieldValues.BytesOfValue` | middleware/buffer/source/field.cpp:376-382 | bytes that are a value of a type are the bytes of that value and of no other |
| `FieldValues.StoredBytes` | middleware/buffer/source/field.cpp:267-315 | every byte a number is stored as, by value and place; a string is its bytes and a 0, binary data is itself |
| `FieldValues.TypesOfIds` | middleware/buffer/include/casual/buffer/field.h:28-43 | the ids of each type are exactly one range of 0x2000000 numbers, short from 0x2000000, long from 0x4000000, and so on in the order of the types |
| `FieldValues.IdsOfValues` | middleware/buffer/include/casual/buffer/field.h:28-43 | the ids that each kind of value can be added to |
| `FieldValues.EmptyBytes` | middleware/buffer/source/field.cpp:999-1021 | the empty value is stored as 2, 8, 1, 4 or 8 zeros for short, long, char, float and double, one 0 for a string, and nothing for binary data |
| `FieldValues.PutAfterEmpty` | middleware/buffer/source/field.cpp:1208-1217 | adding an empty occurrence and putting again has the outcome of the put itself, while occurrences are missing |
| `FieldValues.PutValues` | middleware/buffer/source/field.cpp:1197-1223 | after a put the id has max(old, index + 1) values: the one at index is the new one, the new ones before it are empty, the old ones are unchanged, other ids too |
| `FieldValues.PutPads` | middleware/buffer/source/field.cpp:1197-1223 | the values a put adds before its own are all zeros, as many as the type takes |
| `FieldValues.WithoutValues` | middleware/buffer/source/field.cpp:1908-1923 | without an id none of its values is left and every other id has all of its own |
| `FieldValues.WithoutRemoved` | middleware/buffer/source/field.cpp:1915-1921 | removing one occurrence does not change what is left when all of them are gone |
| `FieldScan.Scan` | middleware/buffer/source/field.cpp:82-103 | the scanning loop has the outcome of the walk from header to header by the sizes found, whatever their sign: an index, comprised, a header read that is not in the memory, or no end; it finds that out in finitely many turns |
| `FieldScan.ScansOnce` | middleware/buffer/source/field.cpp:91-102 | a walk has one outcome, so one index |
| `FieldScan.ScanOfRecords` | middleware/buffer/source/field.cpp:91-102 | the layout of records is scanned to the index of those records |
| `FieldScan.IndexedExactly` | middleware/buffer/source/field.cpp:91-102 | memory that is accepted is a list of records, with the index of that list, if and only if no size met is negative |
| `FieldScan.AcceptsNegative` | middleware/buffer/source/field.cpp:91-102 | the 24 bytes 1, -8, 0 are accepted with two ids that share bytes, though no list of records lays out like that |
| `FieldScan.RevisitsEndless` | middleware/buffer/source/field.cpp:91-102 | a walk that comes back to a place never ends |
| `FieldScan.NeverEnds` | middleware/buffer/source/field.cpp:91-102 | a first size of -16 makes the scan go on for ever |
| `FieldScan.ScanStep` | middleware/buffer/source/field.cpp:91-99 | one turn of the loop extends scanned bytes and index by one record |
| `FieldBuffer.ShiftOccurrences` | middleware/buffer/source/field.cpp:446-455 | the inner loop moves exactly the offsets beyond the place, by the given distance |
| `FieldBuffer.DropOccurrence` | middleware/buffer/source/field.cpp:434-439 | one entry of the id is gone, and the id with its last entry |
| `FieldBuffer.Buffer.constructor` | middleware/buffer/source/field.cpp:82-103 | an empty buffer has no records and an index that agrees |
| `FieldBuffer.Buffer.Rescan` | middleware/buffer/source/field.cpp:82-103 | scanning the memory afresh finds exactly the index kept incrementally |
| `FieldBuffer.Buffer.Count` | middleware/buffer/source/field.cpp:669-690 | the number of occurrences is the number of values of the id, 0 when it has none |
| `FieldBuffer.Buffer.Locate` | middleware/buffer/source/field.cpp:352-366 | found exactly when the occurrence exists, and then the offset and the size stored there are its own |
| `FieldBuffer.Buffer.Get` | middleware/buffer/source/field.cpp:358-382 | the k-th value of the id, or out of bounds exactly when there is none |
| `FieldBuffer.Buffer.Append` | middleware/buffer/source/field.cpp:275-301 | memory and index become those of the records with one more at the end |
| `FieldBuffer.Buffer.ShiftOffsets` | middleware/buffer/source/field.cpp:542-551 | the nested loops shift every offset of every id beyond the place and no other |
| `FieldBuffer.Buffer.ExchangeAt` | middleware/buffer/source/field.cpp:512-551 | memory and index become those of the records with one value exchanged |
| `FieldBuffer.Buffer.Update` | middleware/buffer/source/field.cpp:509-553 | exchanges the k-th value of the id; out of range it reports so and changes nothing |
| `FieldBuffer.Buffer.EraseAt` | middleware/buffer/source/field.cpp:424-455 | memory and index become those of the records with one removed |
| `FieldBuffer.Buffer.RemoveOccurrence` | middleware/buffer/source/field.cpp:417-503 | removes the k-th occurrence; an id not above 0 or an index out of range changes nothing and is reported |
| `FieldBuffer.Buffer.RemoveAll` | middleware/buffer/source/field.cpp:1903-1906 | no record is left and the index is empty |
| `FieldBuffer.Buffer.RemoveId` | middleware/buffer/source/field.cpp:1908-1923 | the countdown leaves the records of all other ids in order, exactly for ids above 0; for others it reports success and leaves everything |
| `FieldBuffer.Buffer.Add` | middleware/buffer/source/field.cpp:974-996 | a value is appended exactly when its type is the one the id carries |
| `FieldBuffer.Buffer.AddEmpty` | middleware/buffer/source/field.cpp:999-1021 | the id gets one value more, of zeros, as many as its type takes; an id without a type changes nothing |
| `FieldBuffer.Buffer.Set` | middleware/buffer/source/field.cpp:1168-1194 | the typed form of an update, with its three outcomes |
| `FieldBuffer.Buffer.Put` | middleware/buffer/source/field.cpp:1197-1223 | ends for every index, with the records padded by empty values up to the index (what they hold is FieldValues.PutPads); a negative index appends |
| `FieldBuffer.Buffer.CopyBuffer` | middleware/buffer/source/field.cpp:792-815 | the target holds the records of the source |
| `FieldBuffer.Buffer.CopyMemory` | middleware/buffer/source/field.cpp:817-839 | raw memory is taken over exactly when its scan gives an index, and is a list of records exactly when the scan met no negative size; comprised memory leaves the target as it was |
| `FieldBuffer.Buffer.Next` | middleware/buffer/source/field.cpp:718-786 | refines the step of the iteration from the index |
| `FieldBuffer.Buffer.PerformOne` | middleware/buffer/source/field.cpp:275-553 | every accepted operation keeps memory, index and records in agreement |
| `FieldBuffer.Buffer.Perform` | middleware/buffer/source/field.cpp:275-553 | after any run of append, empty append, set, put, update, removals, copies from another buffer and copies of raw memory that is comprised or a list of records, the memory is the layout of the records of the run and the index is that of a scan |
| `FieldBuffer.RunLeavesOthers` | middleware/buffer/source/field.cpp:275-553 | over any run the values of an id change only through operations on that id |
| `FieldBuffer.IndexIsSound` | middleware/buffer/source/field.cpp:80-103 | offsets ascend strictly, no id has an empty list, every offset points at a header with its id, and the memory is as long as its records |
| `FieldIteration.VisitsComplete` | middleware/buffer/source/field.cpp:718-786 | the visits are exactly the (id, occurrence) pairs that exist |
| `FieldIteration.VisitsAscend` | middleware/buffer/source/field.cpp:718-786 | the visits ascend lexicographically, so none comes twice |
| `FieldIteration.VisitsCount` | middleware/buffer/source/field.cpp:718-786 | there are as many visits as records in the bytes |
| `FieldIteration.FirstExactly` | middleware/buffer/source/field.cpp:743-752 | no id starts with the least (id, occurrence) pair that exists, and is out of bounds exactly when the buffer is empty |
| `FieldIteration.NextExactly` | middleware/buffer/source/field.cpp:753-786 | from every other cursor, also one that is no visit: invalid exactly when no field has the id, else the least pair that comes later, else out of bounds; what each of them leaves the cursor at |
| `FieldIteration.NextAmong` | middleware/buffer/source/field.cpp:743-786 | a step goes from each visit to the next, and from the last out of bounds |
| `FieldIteration.WalkVisitsAll` | middleware/buffer/source/field.cpp:1930-1946 | from no id, step n ends on visit n, and the step after the last is out of bounds, when no field has id 0 |
| `FieldIteration.WalkGoesRound` | middleware/buffer/source/field.cpp:1930-1946 | with a field of id 0 the iteration is thrown back to the first field whenever it gets there |
| `FieldIteration.WalkEnds` | middleware/buffer/source/field.cpp:1930-1946 | an iteration ends if and only if no field has id 0 |
| `FieldStream.GroupedValues` | middleware/buffer/source/field.cpp:1633-1655 | grouping by id keeps the sequence of values of every id |
| `FieldStream.GroupedAscends` | middleware/buffer/source/field.cpp:1633-1655 | the grouped records ascend by id |
| `FieldStream.GroupedIsFixed` | middleware/buffer/source/field.cpp:1633-1655 | grouping a second time changes nothing |
| `FieldStream.StreamId` | middleware/buffer/source/field.cpp:1452-1498 | the inner loop writes the named values of one id in the order of its occurrences |
| `FieldStream.StreamOut` | middleware/buffer/source/field.cpp:1633-1655 | the buffer is written as the named values of its grouped records; it fails exactly when an id has no name |
| `FieldStream.StreamIn` | middleware/buffer/source/field.cpp:1501-1601 | a new buffer holds the records the named values stand for, those with unknown names left out |
| `FieldStream.ReceivedNext` | middleware/buffer/source/field.cpp:1501-1601 | a value with a known name goes to the end of the id of that name, one with an unknown name is dropped |
| `FieldStream.ReceivedBack` | middleware/buffer/source/field.cpp:1501-1601 | names that lead back to their ids give the written records back |
| `FieldStream.RoundTrip` | middleware/buffer/source/field.cpp:1633-1677 | writing and reading back gives the grouped records, so the same values for every id, if and only if the name and id tables are inverse on the ids present |
| `FieldStream.WrittenIsReadable` | middleware/buffer/source/field.cpp:1501-1601 | what is written can be read again with the types the ids carry, when names and ids are inverse on the ids present |
| `FieldStream.Transfer` | middleware/buffer/source/field.cpp:1633-1677 | writing a buffer out and reading it in again, as one run of the two methods, gives a new buffer with the same values for every id |
| `FieldStream.SecondRoundTrip` | middleware/buffer/source/field.cpp:1633-1677 | a second round trip leaves the bytes of the first unchanged |
| `FieldStream.OutcomeTyped` | middleware/buffer/source/field.cpp:974-1223 | an operation on a buffer of well-typed records leaves well-typed records |
| `FieldStream.RunTyped` | middleware/buffer/source/field.cpp:974-1223 | so does every run of them without raw memory, which is all that writing needs but names |
| `SignalProtocol.RaiseKeeps` | middleware/common/source/signal.cpp:105-113 | a handler's exchange keeps the invariant: counter = flags set - handlers to count - dispatchers holding a decrement; never more scanners and uncounted handlers than flags; raised = consumed + pending for each signal |
| `SignalProtocol.BeginKeeps` | middleware/common/source/signal.cpp:138-153 | a dispatcher's decrement keeps the invariant, whether it goes on to scan or to restore |
| `SignalProtocol.AdvanceKeeps` | middleware/common/source/signal.cpp:138-153 | each later atomic operation of a handler or a dispatcher keeps the invariant |
| `SignalProtocol.NextKeeps` | middleware/common/source/signal.cpp:105-153 | every step of the interleaved system keeps the invariant |
| `SignalProtocol.RunKeeps` | middleware/common/source/signal.cpp:105-250 | every interleaving of any number of handlers and dispatchers keeps the invariant |
| `SignalProtocol.EveryRun` | middleware/common/source/signal.cpp:105-250 | over a whole run each flag raised is consumed at most once and never lost, nobody consumes what it masks, and at rest the counter is the number of flags set |
| `SignalProtocol.RestCounts` | middleware/common/source/signal.cpp:138-153 | with no call in flight the counter equals the number of flags set |
| `SignalProtocol.GivesUpExactly` | middleware/common/source/signal.cpp:142-152 | in every reachable state a dispatcher gives up at once if and only if the flags set are no more than the uncounted handlers and held decrements |
| `SignalProtocol.FinishedStays` | middleware/common/source/signal.cpp:105-250 | a call that has ended stays as it ended over any further run: a consumed signal stays consumed, once |
| `SignalProtocol.CompleteIsRun` | middleware/common/source/signal.cpp:138-153 | a call run to its end undisturbed is a run of the interleaved system |
| `SignalProtocol.ScanTakes` | middleware/common/source/signal.cpp:206-209 | an undisturbed scan takes the first unmasked pending signal in handler order and leaves all other flags, or gives its decrement back |
| `SignalProtocol.DueAll` | middleware/common/source/signal.cpp:228-250 | the signals due are exactly those pending and not masked |
| `SignalProtocol.AllDue` | middleware/common/source/signal.cpp:272-287 | all signals together are due in the order child, alarm, user, hangup, terminate, quit, interrupt |
| `SignalProtocol.DueAscends` | middleware/common/source/signal.cpp:206-209 | any signals that are due keep that order |
| `SignalProtocol.DispatchExactly` | middleware/common/source/signal.cpp:138-153 | an undisturbed dispatch, whatever else is in flight, consumes the first signal due exactly when there is one and the counter is positive; otherwise it changes nothing |
| `SignalProtocol.DispatchTakesFirst` | middleware/common/source/signal.cpp:138-153 | from rest a dispatch consumes exactly the first signal due if there is one, masked flags are untouched, and it ends at rest |
| `SignalProtocol.DrainsInOrder` | middleware/common/source/signal.cpp:138-153 | k dispatches from rest drain the first k signals due, in order, and then find nothing |
| `SignalProtocol.PendingIsDispatchable` | middleware/common/source/signal.cpp:155-166 | from rest pending(mask) is true if and only if a dispatch with that mask would consume |
| `SignalProtocol.ConcurrentDispatchMisses` | middleware/common/source/signal.cpp:142-152 | with another dispatcher in flight the sequential promise fails: a reachable state in which an unmasked pending signal is not dispatched |
| `SignalProtocol.Handle.constructor` | middleware/common/source/signal.cpp:272-287 | no signal pending; the handler of every signal by name: hangup has the callback that does nothing, all others have none |
| `SignalProtocol.Handle.Raise` | middleware/common/source/signal.cpp:105-113 | flags and counter become those of the protocol's handler run to its end |
| `SignalProtocol.Handle.Replace` | middleware/common/source/signal.cpp:176-182 | exactly the callback of that signal is exchanged and the old one returned |
| `SignalProtocol.Handle.Scan` | middleware/common/source/signal.cpp:206-250 | the loop takes the first signal due and its handler, or none |
| `SignalProtocol.Handle.Dispatch` | middleware/common/source/signal.cpp:138-153 | the change of state is the protocol's undisturbed dispatch, and the handler of the first signal due is handed out exactly when there is one and the counter is positive |
| `SignalProtocol.RaiseAndDispatch` | middleware/common/source/signal.cpp:228-287 | from construction, through any replacements of callbacks, a raise and a dispatch hand out that signal with the callback put in place last for it; if there never was one, with none, or the one that does nothing for hangup |
| `Reassembly.SubtractIsDifference` | middleware/common/include/common/range.h:304-336 | the two parts are disjoint and cover exactly the positions of the one range outside the other; there is a second part exactly when the other lies strictly inside |
| `Reassembly.Partition` | middleware/common/include/common/communication/ipc/message.h:112-119 | the ranges that are not empty, as many times, in some order |
| `Reassembly.Exclude` | middleware/common/include/common/communication/ipc/message.h:96-109 | the loop leaves the first parts, and of the second parts only that of the last range |
| `Reassembly.Add` | middleware/common/include/common/communication/ipc/message.h:82-120 | a part that reaches past the end is refused, and no other; any other is copied to its place and taken from the unhandled ranges |
| `Reassembly.AddCovers` | middleware/common/include/common/communication/ipc/message.h:96-109 | received bytes are never asked for again, and none outside the part is lost unless a range but the last is split |
| `Reassembly.SplitLoses` | middleware/common/include/common/communication/ipc/message.h:98-109 | when a range but the last is split the byte after the part is lost for good |
| `Reassembly.AddIsExact` | middleware/common/include/common/communication/ipc/message.h:96-119 | the unhandled bytes are exactly those not received if and only if the part does not lie strictly inside a range other than the last |
| `Reassembly.AddKeepsDisjoint` | middleware/common/include/common/communication/ipc/message.h:96-119 | the unhandled ranges stay disjoint and not empty in every order, also when bytes are lost |
| `Reassembly.RunKeepsAccount` | middleware/common/include/common/communication/ipc/message.h:82-120 | over any sequence of parts, overlapping and in any order, of which none has split a range before the last so far, the unhandled bytes are those no part has brought |
| `Reassembly.RunIsExact` | middleware/common/include/common/communication/ipc/message.h:82-120 | over any sequence of parts the unhandled bytes are exactly those not received, after every part, if and only if no part splits a range before the last |
| `Reassembly.CompleteMeansReceived` | middleware/common/include/common/communication/ipc/message.h:82-120 | such a run is complete if and only if every byte has been received |
| `Reassembly.CompleteIsPayload` | middleware/common/include/common/communication/ipc/message.h:82-120 | if the parts are slices of one payload, a complete message is that payload |
| `Reassembly.OutOfOrderLoses` | middleware/common/include/common/communication/ipc/message.h:96-109 | a whole family of out-of-order arrivals after which a message counts as complete though bytes never came |
| `Reassembly.AddsInOrder` | middleware/common/include/common/communication/ipc/message.h:82-120 | the next part in order leaves one open range behind it, or none at the end |
| `IpcTransport.Send` | middleware/common/source/communication/ipc.cpp:334-359 | the loop sends the parts of the message in order, all of them or as many as the device accepts |
| `IpcTransport.PartsTile` | middleware/common/source/communication/ipc.cpp:342-357 | the parts joined are the payload, each a slice at the offset where the one before ends, each but the last full |
| `IpcTransport.PartCount` | middleware/common/source/communication/ipc.cpp:342-357 | an n-byte payload takes max(1, ceil(n / m)) parts, by bounds that leave no other number |
| `IpcTransport.Inbound.Receive` | middleware/common/source/communication/ipc.cpp:301-331 | the part goes to the first waiting entry of its key or to a new one; one that does not fit changes nothing |
| `IpcTransport.Inbound.Extract` | middleware/common/include/common/communication/device.h:110-116 | one complete entry leaves the cache, the others keep their order |
| `IpcTransport.FindsOwn` | middleware/common/source/communication/ipc.cpp:307-313 | with distinct keys in flight the next part of a message finds that message's own entry |
| `IpcTransport.FirstFits` | middleware/common/source/communication/ipc.cpp:321-329 | the first part of a message starts an entry of its own, of the size of the message, and is not refused |
| `IpcTransport.StartMirrors` | middleware/common/source/communication/ipc.cpp:315-329 | the first part of a message adds an entry that holds what has arrived, and disturbs no other |
| `IpcTransport.ContinueMirrors` | middleware/common/source/communication/ipc.cpp:315-319 | the next part of a message under way advances its own entry and no other |
| `IpcTransport.ExtractMirrors` | middleware/common/source/communication/ipc.cpp:301-331 | an entry taken out holds exactly the message sent, and the rest still mirrors what has arrived |
| `IpcTransport.PartsFit` | middleware/common/include/common/communication/ipc/message.h:84-88 | no later part that comes in order is refused |
| `IpcTransport.RunMirrors` | middleware/common/source/communication/ipc.cpp:301-425 | for any number of messages under way and every interleaving that keeps each message's own order, the cache mirrors what has arrived |
| `IpcTransport.Reassembles` | middleware/common/source/communication/ipc.cpp:301-425 | in every such run an entry is complete if and only if the last part of its message has arrived, and then holds the key and payload sent |
| `TcpTransport.Receiver.Recv` | middleware/common/source/communication/tcp.cpp:498-512 | reads what the socket grants, or raises exactly when no bytes were asked for |
| `TcpTransport.Receiver.ReceivePart` | middleware/common/source/communication/tcp.cpp:491-547 | the imperative form of one call: rest of the header, then of the payload |
| `TcpTransport.Receiver.Receive` | middleware/common/source/communication/tcp.cpp:550-582 | continues the last entry if that is incomplete, else adds one unless nothing came |
| `TcpTransport.Receiver.ReceiveBlocking` | middleware/common/source/communication/tcp.cpp:587-594 | calls until a message is got or something is raised; its outcome is that of the calls it made |
| `TcpTransport.HeaderReads` | middleware/common/source/communication/tcp/message.cpp:46-52 | type and size read back from the header that a sender builds |
| `TcpTransport.WireBytes` | middleware/common/include/common/communication/tcp/message.h:26-45 | every byte on the wire: 8 of the type, 16 of the correlation, 8 of the payload size, numbers with the most significant byte first, and the payload |
| `TcpTransport.CompleteAtEnd` | middleware/common/source/communication/tcp/message.cpp:54-58 | a message with payload is complete when its last byte has come and its type is not 0, and at no other time |
| `TcpTransport.PayloadAdvances` | middleware/common/source/communication/tcp.cpp:514-521 | a read of payload gets on with the message and stays inside it |
| `TcpTransport.HeaderAdvances` | middleware/common/source/communication/tcp.cpp:522-526 | a read of the header gets on with the message and stays inside the header |
| `TcpTransport.PartAdvances` | middleware/common/source/communication/tcp.cpp:491-547 | one call gets on with the message, never past its end, and raises nothing when there is payload |
| `TcpTransport.CallAdvances` | middleware/common/source/communication/tcp.cpp:550-582 | one call touches or adds the last entry only, and gets a message exactly when its last byte has come |
| `TcpTransport.IdleCall` | middleware/common/source/communication/tcp.cpp:550-582 | with nothing to read and only complete entries a call changes nothing |
| `TcpTransport.CallHolds` | middleware/common/source/communication/tcp.cpp:550-582 | the cache stays k whole messages in order and a part of the next; a call gets a message exactly when k grows, and reads something if there is something |
| `TcpTransport.AnySegmentation` | middleware/common/source/communication/tcp.cpp:491-602 | for every cutting of the stream, with calls that get nothing anywhere, nothing is raised and the cache is determined by how much has been read |
| `TcpTransport.ReceivesAll` | middleware/common/source/communication/tcp.cpp:491-602 | once the stream has been read the messages received are exactly those sent, in order |
| `TcpTransport.EmptyRaises` | middleware/common/source/communication/tcp.cpp:522-536 | a message without payload raises in exactly the call that completes its header |
| `TcpTransport.RaisesExactly` | middleware/common/source/communication/tcp.cpp:522-536 | from any bytes, a call that starts with a part of the header raises if and only if it completes the header and the payload size in it is not positive |
| `TcpTransport.NeverDelivered` | middleware/common/source/communication/tcp.cpp:491-602 | a message without payload or of type 0, and anything behind it in the stream, is got by no call, however the stream is cut and whatever has come before |
| `TcpTransport.DeliversPrefix` | middleware/common/source/communication/tcp.cpp:491-602 | however a stream is cut, what is delivered is a first part, in order, of the messages before the first without payload or of type 0 |
| `TcpTransport.DeliversLeading` | middleware/common/source/communication/tcp.cpp:491-602 | there is a cutting by which all of those are delivered |
| `TcpTransport.DeliveredExactly` | middleware/common/source/communication/tcp.cpp:491-602 | some cutting delivers all messages of a stream, in order, if and only if every one has a type that is not 0 and a payload that is not empty |
| `TcpSender.SentExactly` | middleware/common/source/communication/tcp.cpp:422-489 | for every message and every run of calls: what has been sent is the message as far as the offset says, whatever the memory behind the header holds, if and only if no call that takes anything starts inside the header, which the sums of what the calls took decide |
| `TcpSender.SentAsFound` | middleware/common/source/communication/tcp.cpp:422-489 | for a given memory: what has been sent is the message if and only if every call that started inside the header found the rest of it whole headers further on |
| `TcpSender.OffsetIsSum` | middleware/common/source/communication/tcp.cpp:450-472 | the offset is what the calls took, up to the size of the message |
| `TcpSender.HeaderInTwo` | middleware/common/source/communication/tcp.cpp:455-472 | when the header goes in two pieces, the first of k bytes, the message is sent if and only if the memory holds the rest of the header k headers further on |
| `TcpSender.Sender.constructor` | middleware/common/source/communication/tcp/message.cpp:46-52 | type, correlation and payload size go to the header |
| `TcpSender.Sender.Gather` | middleware/common/source/communication/tcp.cpp:439-472 | what is handed to the socket: the payload from the offset on, or the header and the payload, or, inside the header, what lies offset whole headers further on and the payload |
| `TcpSender.Sender.Send` | middleware/common/source/communication/tcp.cpp:422-489 | the offset moves by what the socket takes; done exactly when it is at the end and the type is not 0 |
| `TcpSender.Sender.SendBlocking` | middleware/common/source/communication/tcp.cpp:596-602 | when it returns as many bytes as the message has are out, and they are the message whenever no call that took anything started inside the header; for a given memory exactly when each such call found its rest; with type 0 it never returns |
| `ConfigMerge.Replacing` | middleware/configuration/source/model.cpp:86-98 | replacement is a lawful way to put entities together |
| `ConfigMerge.MergeInto` | middleware/configuration/source/model.cpp:72-98 | the loop of find, replace or push is the merge, for every key and every way of putting together |
| `ConfigMerge.MergeUnique` | middleware/configuration/source/model.cpp:72-98 | unique keys stay unique |
| `ConfigMerge.PutTwice` | middleware/configuration/source/model.cpp:79-82 | two sources of one key can be put together first |
| `ConfigMerge.PutsCommute` | middleware/configuration/source/model.cpp:79-82 | sources of different keys commute when the first is already there |
| `ConfigMerge.MergeOfPut` | middleware/configuration/source/model.cpp:72-98 | merging a list into which an entity was put is putting it into the merged list |
| `ConfigMerge.MergeAssociates` | middleware/configuration/source/model.cpp:72-98 | the merge is associative when the middle list has unique keys, empty keys included |
| `ConfigMerge.MergeIdempotent` | middleware/configuration/source/model.cpp:72-98 | merging a list of unique keys into itself changes nothing if and only if every entity has a key and is not changed by itself |
| `ConfigMerge.OrderOfFirstAppearance` | middleware/configuration/source/model.cpp:72-98 | the keys of the merged list are in the order of first appearance |
| `ConfigMerge.MergeTells` | middleware/configuration/source/model.cpp:72-98 | what the merged list says of a key is what the target says with everything the source says put after it |
| `ConfigMerge.MergeLooksUp` | middleware/configuration/source/model.cpp:72-98 | with unique keys in the source, what the merged list says of a key is what both lists say of it, put together |
| `ConfigMerge.LastWriterWins` | middleware/configuration/source/model.cpp:86-98 | with replacement the last entity of a key in the source is the one in the merged list |
| `ConfigMerge.ReplaceAssociatesExactly` | middleware/configuration/source/model.cpp:86-98 | with replacement, merging three lists in either order gives the same if and only if every key that the middle list has more than once, and the last list too, has the same last entry in both |
| `ConfigMerge.PutCounts` | middleware/configuration/source/model.cpp:86-98 | replacement never changes how often a key that is there occurs, nor the last of several entries |
| `ConfigModel.Configuration.constructor` | middleware/configuration/source/model.cpp:351-361 | holds the given model |
| `ConfigModel.Configuration.AddSystem` | middleware/configuration/source/model.cpp:108-113 | the merge of the system component |
| `ConfigModel.Configuration.AddDomain` | middleware/configuration/source/model.cpp:119-136 | the merge of the domain component |
| `ConfigModel.Configuration.AddTransaction` | middleware/configuration/source/model.cpp:143-150 | the merge of the transaction component |
| `ConfigModel.Configuration.AddService` | middleware/configuration/source/model.cpp:156-165 | the merge of the service component, the timeout only when a duration is set |
| `ConfigModel.Configuration.AddQueue` | middleware/configuration/source/model.cpp:171-207 | the merge of the queue component through its groups and forwards |
| `ConfigModel.Configuration.AddGateway` | middleware/configuration/source/model.cpp:216-277 | the merge of the gateway component through its groups and connections |
| `ConfigModel.Configuration.Add` | middleware/configuration/source/model.cpp:351-361 | all components are merged, none affects another |
| `ConfigFields.SystemByFields` | middleware/configuration/source/model.cpp:108-113 | resources with one key are replaced in their place, new ones come behind, all else stays |
| `ConfigFields.DomainByFields` | middleware/configuration/source/model.cpp:119-136 | the same for variables by name, groups by name, servers and executables by alias, when each comes once in both models; empty names and aliases match nothing |
| `ConfigFields.ServersByAlias` | middleware/configuration/source/model.cpp:131-132 | in terms of the alias alone: each alias comes once, and the servers are those of the right-hand model and those of the left whose alias it lacks, and no others |
| `ConfigFields.ExecutablesByAlias` | middleware/configuration/source/model.cpp:131-133 | the same for executables |
| `ConfigFields.TransactionByFields` | middleware/configuration/source/model.cpp:143-150 | resources by name and mappings by alias; the log of the right-hand model if it gives one |
| `ConfigFields.ServicesByFields` | middleware/configuration/source/model.cpp:156-165 | services by name and restrictions by alias; the timeout of the right-hand model if it has a duration |
| `ConfigFields.QueuesByFields` | middleware/configuration/source/model.cpp:171-207 | queue groups and forward groups with one alias are put together, queues by name and forwards by alias inside them; every note is the right-hand one if it is given |
| `ConfigFields.GatewayByFields` | middleware/configuration/source/model.cpp:216-277 | gateway groups with one alias and one direction are put together, connections by address inside them: exclusions stay, services and queues are appended once, notes are the right-hand ones if they are given |
| `ConfigFields.AppendUniqueAppends` | middleware/configuration/source/model.cpp:249-250 | what is there stays in front, and behind it comes exactly what the source has besides, once |
| `EnvironmentVariable.NameAndValue` | middleware/common/include/common/environment/variable.h:28-43 | a variable is cut at its first =; without one it is all name |
| `ConfigModel.QueueGroupLaws` | middleware/configuration/source/model.cpp:171-177 | merging queue groups keeps alias and unique queues and is associative |
| `ConfigModel.ForwardGroupLaws` | middleware/configuration/source/model.cpp:182-189 | merging forward groups keeps alias and unique forwards and is associative |
| `ConfigModel.InboundGroupLaws` | middleware/configuration/source/model.cpp:224-232 | merging inbound groups keeps alias and direction and unique addresses and is associative |
| `ConfigModel.OutboundConnectionLaws` | middleware/configuration/source/model.cpp:245-253 | merging outbound connections is associative through their unique service and queue lists |
| `ConfigModel.OutboundGroupLaws` | middleware/configuration/source/model.cpp:255-262 | merging outbound groups keeps alias and direction and unique addresses and is associative |
| `ConfigModel.AppendUniqueAssociates` | middleware/configuration/source/model.cpp:249-250 | appending what is not there yet is associative for every three lists |
| `ConfigModel.DomainAssociatesExactly` | middleware/configuration/source/model.cpp:119-136 | merging three domains is associative exactly when the second and the third end alike on every key that the second repeats and the third has |
| `ConfigModel.TransactionAssociatesExactly` | middleware/configuration/source/model.cpp:143-150 | the same for transactions |
| `ConfigModel.ServicesAssociateExactly` | middleware/configuration/source/model.cpp:156-165 | the same for services |
| `ConfigModel.PlusAssociatesExactly` | middleware/configuration/source/model.cpp:351-361 | (a += b) += c equals a += (b += c) for whole models exactly when b and c end alike on every repeated key of b in a list of replaced entities, given unique keys in the queues and the gateway of b and in the nested lists of c; empty keys allowed, any a |
| `ConfigModel.PlusAssociates` | middleware/configuration/source/model.cpp:351-361 | in particular with unique keys in b and in the nested lists of c, any a |
| `ConfigModel.PlusIdempotent` | middleware/configuration/source/model.cpp:351-361 | with unique keys a += a leaves a unchanged if and only if no alias or name that serves as a key is empty, nested lists included |
| `ConfigModel.SettingsAreLastWritten` | middleware/configuration/source/model.cpp:125-165 | single settings are those of the right-hand model as far as it gives them |
| `ConfigModel.EntitiesAreLastWritten` | middleware/configuration/source/model.cpp:119-136 | servers, executables and variables are those of the right-hand model where it has them |
| `ConfigModel.QueuesAreLastWritten` | middleware/configuration/source/model.cpp:171-207 | two levels deep: a queue of a group both models have is that of the right-hand model if it has it, else that of the left; the queuebase stays |
| `ConfigModel.ConnectionsAreLastWritten` | middleware/configuration/source/model.cpp:216-240 | of an inbound connection both models have, the exclusions stay, discovery and limit are those of the right-hand model, the note too if it has one |
| `ConfigModel.DuplicatesDoNotAssociate` | middleware/configuration/source/model.cpp:86-98 | an alias that the middle list has twice, and of which the last list says something else than the second of the two, makes the order of merging matter, whatever the first list is |
| `UserModel.ForEach` | middleware/configuration/source/user.cpp:294-379 | the in-place loop changes every element by the step and no other |
| `UserModel.Alias` | middleware/configuration/source/user.cpp:40-44 | exactly the entities without an alias get a placeholder |
| `UserModel.NormalizeInbound` | middleware/configuration/source/user.cpp:85-115 | the nested loops give the normalised inbound, or the error exactly when an address is empty |
| `UserModel.NormalizeGateway` | middleware/configuration/source/user.cpp:129-182 | regular and reverse gates and the deprecated listeners and connections are filled, or the error exactly when an address is empty |
| `UserModel.NormalizeQueueGroups` | middleware/configuration/source/user.cpp:254-281 | aliases, retries and their defaults through all groups, or the error exactly when a queue name is empty |
| `UserModel.NormalizeForward` | middleware/configuration/source/user.cpp:188-225 | the nested loops give the normalised forwards |
| `UserModel.NormalizeQueues` | middleware/configuration/source/user.cpp:227-291 | defaults, groups and forwards together |
| `UserModel.NormalizeParts` | middleware/configuration/source/user.cpp:294-311 | aliases, transaction, gateway and queue are normalised, the rest stays, or the error |
| `UserModel.Normalize` | middleware/configuration/source/user.cpp:294-379 | the normalised domain, or an error exactly when an address or a queue name is empty |
| `UserDefaults.RefusedExactly` | middleware/configuration/source/user.cpp:85-281 | normalisation fails if and only if a connection of an inbound or outbound, regular or reverse, has no address, or a queue has no name |
| `UserDefaults.InboundTwice` | middleware/configuration/source/user.cpp:85-115 | normalising an inbound twice is normalising it once, and it stays valid |
| `UserDefaults.GatewayTwice` | middleware/configuration/source/user.cpp:129-182 | normalising a gateway twice is normalising it once, deprecated lists included, and it stays valid |
| `UserDefaults.QueuesTwice` | middleware/configuration/source/user.cpp:227-291 | normalising queues twice is normalising them once, with the defaults settled by the first pass |
| `UserDefaults.ForwardTwice` | middleware/configuration/source/user.cpp:188-225 | normalising forwards twice is normalising them once |
| `UserDefaults.EntitiesTwice` | middleware/configuration/source/user.cpp:294-341 | aliases and defaults of servers and executables are settled by the first pass, whatever placeholders the second has |
| `UserDefaults.NormalizedTwice` | middleware/configuration/source/user.cpp:294-379 | normalisation is idempotent through the whole domain model |
| `UserDefaults.KeptExactly` | middleware/configuration/source/user.cpp:294-379 | the normalised domain keeps everything the user has set, at every depth, and takes the rest from the defaults alone, if and only if no queue group has a name without an alias, no default environment is needed that holds something, and no alias of a server or executable is set to nothing |
| `UserDefaults.KeptOnce` | middleware/configuration/source/user.cpp:294-379 | there is at most one model that keeps everything and takes the rest from the defaults, so the normalised one is that model |
| `UserDefaults.LostOnly` | middleware/configuration/source/user.cpp:294-379 | every domain that normalises keeps everything at every depth but three things, and what becomes of these: the name of a queue group that becomes its alias is empty, a needed default environment holds nothing, an alias set to nothing is the placeholder |
| `UserDefaults.GatewayIsKept` | middleware/configuration/source/user.cpp:85-182 | every gateway keeps what is set and takes the rest from its defaults |
| `UserDefaults.QueuesAreKept` | middleware/configuration/source/user.cpp:227-291 | the queues do exactly when no group has a name without an alias |
| `UserDefaults.ForwardIsKept` | middleware/configuration/source/user.cpp:188-225 | every forward does, in every group |
| `UserDefaults.EntitiesAreKept` | middleware/configuration/source/user.cpp:325-343 | servers and executables do exactly when no alias is set to nothing |
| `UserDefaults.NameIsLost` | middleware/configuration/source/user.cpp:254-260 | a queue group with a name and no alias loses the name |
| `UserDefaults.DefaultEnvironmentIsLost` | middleware/configuration/source/user.cpp:318-322 | a default environment that is needed is moved away from the defaults |
| `UserDefaults.EmptyAliasIsLost` | middleware/configuration/source/user.cpp:40-44 | an alias set to nothing is replaced by a placeholder |
| `Chronology.NumberOfDigits` | middleware/common/source/chronology.cpp:134-141 | a number comes back from its digits |
| `Chronology.DigitAt` | middleware/common/source/chronology.cpp:197-241 | digit i from the end is the number divided by 10 to the power i, modulo 10, and only 0 starts with a 0 |
| `Chronology.PowersOfTen` | middleware/common/source/chronology.cpp:197-241 | the first, second, fourth and seventh digit from the end stand for 1, 10, 1000 and 1000000 |
| `Chronology.ShownIs` | middleware/common/source/chronology.cpp:193-210 | an amount is shown as its digits and its unit, with a - in front if it is negative |
| `Chronology.Stream` | middleware/common/source/chronology.cpp:197-210 | one amount is written after what is there, with the delimiter when needed, and nothing for zero |
| `Chronology.ToString` | middleware/common/source/chronology.cpp:214-241 | the printer writes the amounts of the duration that are not zero, largest unit first |
| `Chronology.Accumulate` | middleware/common/source/chronology.cpp:184-187 | the fold over the split ranges is the sum of what the parts are worth |
| `Chronology.FromString` | middleware/common/source/chronology.cpp:168-188 | the parser gives that sum with the worth of a part, or the error of a part |
| `Chronology.ParsedSum` | middleware/common/source/chronology.cpp:168-188 | any text cut at any of its + parses to the sum of what its two sides parse to |
| `Chronology.ParsedShown` | middleware/common/source/chronology.cpp:121-163 | a shown amount parses to its count times its unit, with or without a space after it |
| `Chronology.ParsedUnit` | middleware/common/source/chronology.cpp:121-163 | what a count and any text behind it parse to: 1, 1000, 1000000, 1000000000, 60 or 3600 times that, or 24 hours, for ns, us, ms, s, min, h and d, seconds without a unit, and an error for any other text |
| `Chronology.PartTrims` | middleware/common/source/chronology.cpp:121-132 | spaces before and after a part, and parts of spaces alone, make no difference |
| `Chronology.RoundsToNearest` | middleware/common/source/chronology.cpp:121-163 | a clock of microseconds rounds nanoseconds to the nearest, and of two to the even one |
| `Chronology.ParsedJoined` | middleware/common/source/chronology.cpp:168-188 | any list of shown amounts joined by " + " parses to their total, in any units and any order |
| `Chronology.AmountsAddUp` | middleware/common/source/chronology.cpp:221-237 | the amounts of a duration that is not negative add up to it |
| `Chronology.AmountsExactly` | middleware/common/source/chronology.cpp:221-237 | the amounts of a duration are the one way to cut it, each smaller unit having fewer than make up the next larger one |
| `Chronology.PrintedExactly` | middleware/common/source/chronology.cpp:193-241 | the text is the amounts of that cut that are not zero, largest unit first, with " + " between them; for a negative duration the amounts of its opposite, negated |
| `Chronology.ParsedPrinted` | middleware/common/source/chronology.cpp:121-241 | for every duration not negative the text parses to the duration, its last nanoseconds rounded to the clock |
| `Chronology.NegativeDoesNotParse` | middleware/common/source/chronology.cpp:121-163 | the text of a negative duration does not parse |
| `Chronology.EmptyIsZero` | middleware/common/source/chronology.cpp:216-217 | zero is the one duration whose text is empty |
| `Chronology.RoundTrip` | middleware/common/source/chronology.cpp:121-241 | from::string(to::string(d)) == d if and only if d is not negative and a whole number of the clock's units |
| `Expand.HandlePart` | middleware/common/source/environment/expand.cpp:48-91 | writes the part or its replacement and leaves everything outside the part as it was |
| `Expand.HandleNext` | middleware/common/source/environment/expand.cpp:94-96 | the part that comes next is handled while the text after it is still as given |
| `Expand.ExpandText` | middleware/common/source/environment/expand.cpp:26-100 | the in-place loop gives the expansion of the text |
| `Expand.ExpandWith` | middleware/common/source/environment/expand.cpp:113-125 | the same with local variables before the environment |
| `Expand.ResolvedBy` | middleware/common/source/environment/expand.cpp:113-125 | the first local variable of the name counts, and the environment exactly when there is none |
| `Expand.NextRange` | middleware/common/source/environment/expand.cpp:33-46 | part and rest make up the text, and the part is not empty |
| `Expand.PartShape` | middleware/common/source/environment/expand.cpp:33-46 | a part is plain, or a "${" and plain text; after it the text ends or a "${" comes |
| `Expand.PartsMakeUp` | middleware/common/source/environment/expand.cpp:33-46 | the parts joined are the text and each but the first starts with "${" |
| `Expand.ScanPart` | middleware/common/source/environment/expand.cpp:48-91 | handling a part is scanning it character by character |
| `Expand.ExpandedIsScan` | middleware/common/source/environment/expand.cpp:26-100 | the expansion by parts equals one scan from left to right that never looks at a value again |
| `Expand.PlainUnchanged` | middleware/common/source/environment/expand.cpp:26-100 | text without "${" is not changed |
| `Expand.ExpandedApart` | middleware/common/source/environment/expand.cpp:26-100 | expand(a + b) == expand(a) + expand(b) whenever b starts with "${" |
| `Expand.NameReplaced` | middleware/common/source/environment/expand.cpp:48-91 | in any text, "${", a name and "}" give way to the value of that name, and what comes after is expanded by itself |
| `Expand.EmptyNameStays` | middleware/common/source/environment/expand.cpp:52-58 | a "${}" stays as it is where the text ends or a "${" comes after it |
| `Argument.Assign` | middleware/common/include/common/argument.h:601-606 | finds the first handler that has the key, turns it to the front and gives it the values |
| `Argument.AssignOne` | middleware/common/include/common/argument.h:794-798 | an option checks uses and values; a closed group opens; an open group passes on |
| `Argument.HasExactly` | middleware/common/include/common/argument.h:870-873 | a key can be given if and only if a way through open groups leads to an option or a closed group that has it |
| `Argument.NextExactly` | middleware/common/include/common/argument.h:732-751 | what ends values, by the keys: those of options and groups, open or not, and what is reachable in the content of groups |
| `Argument.PermitsExactly` | middleware/common/include/common/argument.h:696-705 | a number is accepted if and only if it is at most max and min plus a whole number of steps, or at least min without steps |
| `Argument.AssignsExactly` | middleware/common/include/common/argument.h:601-647 | an action goes to the handler that the first way leads to: it is refused, and with which error, by the uses and values of that handler alone; otherwise that handler keeps it behind those before, the handlers on the way come to the front, and all else is as it was |
| `Argument.TraversalFails` | middleware/common/include/common/argument.h:732-751 | a traversal that fails has assigned what comes before some key; the key is unknown if and only if nothing reachable has it, and otherwise the error is that of the assignment of its values |
| `Argument.Holder.CountValues` | middleware/common/include/common/argument.h:743-746 | the values end at the first argument that is a key of an option or a group of the outermost list, or that can be reached in the content of such a group, and at no other |
| `Argument.Holder.Traverse` | middleware/common/include/common/argument.h:732-751 | the loop gives the actions and the handlers of the traversal, or its error; in the state of each action its key can be reached, none of its values ends values and what follows them does, and the keys and values are the arguments |
| `Argument.TraversalCoversArguments` | middleware/common/include/common/argument.h:732-751 | the keys and values of the actions, joined, are the argument list |
| `Argument.TraversalIsProper` | middleware/common/include/common/argument.h:732-751 | each key could be given to a handler when it was, and no value was a next key in that state |
| `Argument.AssignRotates` | middleware/common/include/common/argument.h:635-647 | the handlers only turn, and the one used comes to the front |
| `Argument.TraversalRotates` | middleware/common/include/common/argument.h:635-647 | after any traversal the handlers are a rotation of the original ones |
| `Argument.LastUsedIsFirst` | middleware/common/include/common/argument.h:641-646 | the handler used last is at the front |
| `Argument.AssignBinds` | middleware/common/include/common/argument.h:601-606 | an assignment adds the action to exactly one handler, at any depth |
| `Argument.TraversalBinds` | middleware/common/include/common/argument.h:732-751 | what was assigned stays, and every action has been assigned once |
| `Argument.AssignMarks` | middleware/common/include/common/argument.h:870-888 | for any names: an assignment of one of them counts for just the handlers that have them, at any depth, and no other assignment does, when none of those handlers has other names too |
| `Argument.TraversalMarks` | middleware/common/include/common/argument.h:732-751 | over a whole traversal the handlers with some names have been given exactly as much as those names were used |
| `Argument.OpensAtMostOnce` | middleware/common/include/common/argument.h:870-888 | names that no option has, and that belong to groups which have no others, are used at most once for each such group that was closed, all names taken together and at any depth |
| `Argument.OpenedHasNot` | middleware/common/include/common/argument.h:870-873 | when all groups with such names are open no handler has any of the names, so one more use is an error |
| `Argument.OptionHoldsUses` | middleware/common/include/common/argument.h:696-705 | an option that shares its names with nothing has been given as much as they were used |
| `Argument.ValidatesExactly` | middleware/common/include/common/argument.h:696-720 | validation succeeds if and only if no outermost group must be used, no outermost option must be used more than once, and every outermost option that must be used once has been |
| `Argument.ValidatesByUses` | middleware/common/include/common/argument.h:696-720 | the same by the arguments alone, counted by name, when what must be used shares its names with nothing |
| `Argument.MandatoryGroupFails` | middleware/common/include/common/argument.h:939-942 | a group that must be used is refused by the validation whatever the arguments are |
| `Argument.MandatoryTwiceFails` | middleware/common/include/common/argument.h:699-719 | so is an option that must be used twice or more, because its first use is refused |
| `Argument.NestedUsesDoNotMatter` | middleware/common/include/common/argument.h:620-623 | how often options inside groups must be used makes no difference to the validation after the same actions |
| `OrderBuffer.Buffer.constructor` | middleware/buffer/source/order.cpp:40-50 | an empty memory and the cursor at its start |
| `OrderBuffer.Buffer.AddPrepare` | middleware/buffer/source/order.cpp:241-255 | empties the memory and leaves the cursor where it is |
| `OrderBuffer.Buffer.GetPrepare` | middleware/buffer/source/order.cpp:340-354 | the cursor is at the start again |
| `OrderBuffer.Buffer.Append` | middleware/buffer/source/order.cpp:257-273 | the bytes are added at the end or nothing is |
| `OrderBuffer.Buffer.AddBinary` | middleware/buffer/source/order.cpp:277-304 | size and data are added together or, by the rollback, neither |
| `OrderBuffer.Buffer.Add` | middleware/buffer/source/order.cpp:306-334 | the image of the item is added at the end, or the memory stays |
| `OrderBuffer.Buffer.Get` | middleware/buffer/source/order.cpp:384-425 | reads at the cursor and moves it to where the read reaches, be it before the memory; out of bounds leaves it where it was |
| `OrderBuffer.Buffer.Perform` | middleware/buffer/source/order.cpp:241-425 | each operation that has a defined outcome makes the step of a run |
| `OrderBuffer.Buffer.AddAll` | middleware/buffer/source/order.cpp:306-334 | any list of items leaves their images one after another |
| `OrderBuffer.Buffer.GetAll` | middleware/buffer/source/order.cpp:384-425 | as many gets of the same kinds give the items back and end at the end |
| `OrderBuffer.Buffer.RoundTrip` | middleware/buffer/source/order.cpp:257-425 | any list of typed adds, a get-prepare and the same typed gets give the same values, with consumed = utilized |
| `OrderBuffer.ReadsBack` | middleware/buffer/source/order.cpp:358-382 | an item reads back wherever its image stands, with anything before and after, and the read ends right after it |
| `OrderBuffer.StoredImage` | middleware/buffer/source/order.cpp:257-334 | what is stored: 1 or 0 for a flag, size and data for binary data, and what the fielded buffer stores for the rest |
| `OrderBuffer.GotIsImage` | middleware/buffer/source/order.cpp:358-415 | the other way round, from any memory and any place: the bytes passed over by a get that succeeds are the image of what it gives, but for a flag, of which every byte that is not 0 is true |
| `OrderBuffer.OutsideExactly` | middleware/buffer/source/order.cpp:401-415 | a get is out of bounds if and only if there is nothing to go by or it reaches past the end, short of an overflow; one that succeeds moves the cursor to where it reaches |
| `OrderBuffer.StaysInsideExactly` | middleware/buffer/source/order.cpp:401-415 | a get has a defined outcome if and only if it is not of binary data whose stored size overflows when added to its place, and then leaves the cursor in the memory if and only if that size does not lead to before the start |
| `OrderBuffer.GoesBefore` | middleware/buffer/source/order.cpp:376-382 | a stored size of -9 is a success that puts the cursor before the memory, after which no get has a defined outcome |
| `OrderBuffer.TooLarge` | middleware/buffer/source/order.cpp:376-382 | the largest stored size overflows, so that the get has no defined outcome |
| `OrderBuffer.RunStaysInside` | middleware/buffer/source/order.cpp:241-425 | over any run every outcome is defined and the cursor stays in the memory throughout, if and only if the memory is never reset under a moved cursor and no binary data is got whose size leads to before the start or overflows |
| `OrderBuffer.GetsOnExactly` | middleware/buffer/source/order.cpp:376-382 | a successful get moves the cursor forward if and only if it is not of binary data with a stored size of -8 or less |
| `OrderBuffer.NeverGetsOn` | middleware/buffer/source/order.cpp:376-382 | a stored size of -8 keeps the cursor in place |

## Left out

- FieldScan.Scan: a header that is cut short or not in the memory has no defined outcome, because the code reads past the memory there; the cursor of the scan is an unbounded number, where a pointer would overflow.
- FieldBuffer.Buffer.CopyMemory: nothing more is said of a buffer that has taken over memory with negative sizes, nor of its later operations.
- FieldBuffer.Buffer.Put: the value is of the type that the id carries, because the code reads it through a pointer of that type.
- FieldBuffer.Buffer.Append: running out of memory and the rollback from it are not modelled, nor are capacity, handles and the pool they are found in.
- FieldStream.StreamOut: an archive is a list of name and value; its formats, and the tables of names and ids as files, are not part of this model.
- FieldValues.ValueOfBytes: a float or double is the bits of its IEEE 754 form; no arithmetic is done on them.
- OrderBuffer.Buffer.Get: the bounds are checked before the read, where the code reads first; a read before the memory, or one whose sum overflows, has no defined outcome, and nothing is said of the cursor after it.
- SignalProtocol.RunKeeps: each atomic operation is one step and all steps are sequentially consistent; system calls, masks of threads and what a callback does in turn are not modelled.
- SignalProtocol.Handle.Dispatch: a callback is a number that stands for it; that a signal without one is raised as an error is left to the caller.
- Reassembly.Add: sizes are natural numbers; a header with negative numbers is not modelled.
- IpcTransport.Send: the size of a part is a parameter, because it differs between platforms; a send that stops part-way is modelled, retrying it is not.
- IpcTransport.Inbound.Receive: a part that the device has not got yet is simply a call that does not happen.
- TcpTransport.Receiver.Recv: what the socket grants is a parameter; errors other than would-block and retry are not modelled, and a payload too large for the memory is not.
- TcpSender.Sender.Gather: what the memory holds behind the header is a parameter that does not change; that reading there is outside of the object is not modelled.
- TcpSender.Sender.Send: errors of the socket other than would-block are not modelled.
- ConfigModel.Configuration.Add: fields that the merge does not look at are kept as they are written; paths and durations are plain strings and numbers.
- UserModel.Normalize: fields that no normalisation looks at (names and notes of the domain, groups, the service default execution, restrictions and resources of servers, routes, forward notes) are kept as they are written and left out of the types.
- ConfigModel.PlusAssociatesExactly: repeated keys in lists whose entities are put together, not replaced, (queue groups, forward groups, gateway groups and connections) are excluded.
- Chronology.FromString: numbers are unbounded; text whose numbers or sum exceed the range of the clock's counter has no defined outcome in the code. The sum of what a duration prints never exceeds it.
- Expand.ExpandWith: the environment is a total function, which gives an empty string for what it lacks.
- Argument.Assign: what an option does with its values (conversion to types, callbacks) is not modelled; a value is only counted.
- signal::clear, which resets flags and counter for unit tests and is not atomic.
- Help and completion output, the policies that override a traversal, and alias normalisation of the merged model.
- The nginx plugin, archives, transcoding, metrics, logging and the select set would add easy members only.
