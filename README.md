# A Dafny model of a muduo-style reactor's bookkeeping

The system is a single-threaded-reactor network library in the style of
muduo: one event loop per thread polls a set of channels (file descriptors
with an interest mask), dispatches their events to callbacks, runs queued
tasks, and fires timers kept in an ordered queue. TCP connections buffer
outgoing bytes, obey a high-water mark and shut down in two phases. A server
names and distributes connections round-robin over a pool of loops, and a
connector retries outbound connects with exponential backoff. Around this
core sit a byte buffer with a cheap prepend area, string pieces, a fixed
log buffer with integer formatting, log-level gating, a rolling log file and
the pieces of an HTTP request parser.

Almost all of this code is sequential bookkeeping around system calls. The
model keeps the bookkeeping and turns every system-call result (bytes read
or written, `errno`, poll results, clock readings, `getsockopt`) into a
method parameter. The model does not run callbacks. It records them, in
order, in a log field of the object that would call them. Work handed to
another loop with `runInLoop`/`queueInLoop` is recorded the same way.

One Dafny file models one area of the source:

| file | module | models |
|---|---|---|
| bytes.dfy | Bytes | octets, an optional value, and the network-order images of 8/16/32-bit integers |
| buffer.dfy | NetBuffer | `Buffer` (muduo/net/Buffer.h) |
| string_piece.dfy | StringPieces | `StringPiece` (muduo/base/StringPiece.h) |
| text.dfy | Text | decimal and hex digits of integers and the value they read back as, shared by several modules |
| log_stream.dfy | LogStreams | `convert`, `convertHex`, `FixedBuffer`, `LogStream` (muduo/base/LogStream.*) |
| logging.dfy | Logging | levels, `LOG_*` gating, `SourceFile`, `CheckNotNull` (muduo/base_bak/Logging.h) |
| log_file.dfy | LogFiles | `LogFile` and its `File` (muduo/base/LogFile.cpp) |
| timer.dfy | Timers | `Timer` (muduo/net_bak/Timer.*) |
| timer_queue.dfy | TimerQueues | `TimerQueue` (muduo/net_bak/TimerQueue.cpp) |
| channel.dfy | Channels | `Channel` (muduo/net_bak/Channel.h, muduo/net/Channel.cpp) |
| poll_poller.dfy | PollPollers | `PollPoller` (muduo/net_bak/poller_bak/PollPoller.cpp) |
| epoll_poller.dfy | EPollPollers | `EPollPoller` (muduo/net_bak/poller_bak/EPollPoller.cpp) |
| event_loop.dfy | EventLoops | `EventLoop` (muduo/net_bak/EventLoop.cpp) |
| errno.dfy | Errno | the Linux `errno` values the core tests |
| sockets_ops.dfy | SocketsOps | accept/connect error classification, `isSelfConnect`, `getSocketError`, address byte order (muduo/net/SocketsOps.cpp) |
| tcp_connection.dfy | TcpConnections | `TcpConnection` (muduo/net_bak/TcpConnection.cpp) |
| connector.dfy | Connectors | `Connector` (muduo/net_bak/Connector.cpp) |
| thread_pool.dfy | EventLoopThreadPools | `EventLoopThreadPool` (muduo/net/EventLoopThreadPool.cpp) |
| tcp_server.dfy | TcpServers | `TcpServer` (muduo/net/TcpServer.cpp) |
| http_request.dfy | HttpRequests | `HttpRequest` (muduo/net/http/HttpRequest.h) |
| http_context.dfy | HttpContexts | `HttpContext` (muduo/net/http/HttpContext.h) |
| http_context_bak.dfy | HttpContextsBak | the second `HttpContext` (muduo/net_bak/http_bak/HttpContext.h) |

Objects whose fields the source updates in place are classes whose methods
state their whole new state with `old(...)`. Each such class has a `Valid()`
invariant that its methods preserve. Examples are the buffer's index order,
the two timer sets holding the same timers, and the poll registry's index
map. Pure parts are functions with lemmas: the `errno` classifications,
string comparison, number rendering and the HTTP method tokens. The C
integer widths that matter (`int8/16/32_t`, the formatted integer types)
are explicit ranges. `int` in the model is unbounded elsewhere.

## Model

| member | source | states |
|---|---|---|
| Bytes.FromBigEndianOfBigEndian | muduo/net/Buffer.h:239-245 | decoding the n-byte network-order image of u < 256^n gives u back |
| Bytes.BigEndianOfFromBigEndian | muduo/net/Buffer.h:239-245 | encoding a byte string's big-endian value in as many bytes gives the string back |
| Bytes.DecodeEncodeSigned | muduo/net/Buffer.h:191-195 | an n-byte two's-complement value survives hostToNetwork then networkToHost |
| Bytes.EncodeDecodeSigned | muduo/net/Buffer.h:239-245 | every n-byte string is the network image of the signed value read from it |
| StringPieces.MemcmpZero | muduo/base/StringPiece.h:89-92 | memcmp over n bytes is 0 exactly when the first n bytes agree |
| StringPieces.MemcmpAntisymmetric | muduo/base/StringPiece.h:98-102 | swapping memcmp's arguments negates its result |
| StringPieces.MemcmpLex | muduo/base/StringPiece.h:98-102 | the macro's "memcmp over the shorter length, then length" test is exactly lexicographic order |
| StringPieces.EqualsIsEquality | muduo/base/StringPiece.h:89-95 | operator== holds exactly for equal byte strings and operator!= exactly for different ones |
| StringPieces.LessIsLex | muduo/base/StringPiece.h:103 | operator< is lexicographic less-than |
| StringPieces.GreaterIsReversedLess | muduo/base/StringPiece.h:106 | operator> is lexicographic less-than with the arguments swapped |
| StringPieces.NonStrictOrders | muduo/base/StringPiece.h:104-105 | operator<= is < or ==, operator>= is > or == |
| StringPieces.CompareSign | muduo/base/StringPiece.h:109-116 | compare is negative, zero or positive exactly when the pieces are <, == or > |
| StringPieces.StartsWithIsPrefix | muduo/base/StringPiece.h:133-135 | starts_with holds exactly when x is a prefix of the piece |
| StringPieces.Equals | muduo/base/StringPiece.h:89-92 | operator==: equal lengths and memcmp 0; by StringPieces.EqualsIsEquality it holds exactly for equal byte strings |
| StringPieces.NotEquals | muduo/base/StringPiece.h:93-95 | operator!= is the negation of operator==; by StringPieces.EqualsIsEquality it holds exactly for different byte strings |
| StringPieces.Less | muduo/base/StringPiece.h:103 | operator< from the comparison macro; by StringPieces.LessIsLex it is lexicographic less-than |
| StringPieces.LessEq | muduo/base/StringPiece.h:104 | operator<= from the comparison macro; by StringPieces.NonStrictOrders it is lexicographic less-than or equality |
| StringPieces.GreaterEq | muduo/base/StringPiece.h:105 | operator>= from the comparison macro; by StringPieces.NonStrictOrders it is reversed lexicographic less-than or equality |
| StringPieces.Greater | muduo/base/StringPiece.h:106 | operator> from the comparison macro; by StringPieces.GreaterIsReversedLess it is lexicographic less-than with the arguments swapped |
| StringPieces.Compare | muduo/base/StringPiece.h:109-116 | compare(); by StringPieces.CompareSign its sign is the lexicographic order of the two pieces |
| StringPieces.StartsWith | muduo/base/StringPiece.h:133-135 | starts_with(); by StringPieces.StartsWithIsPrefix it holds exactly for a prefix |
| StringPieces.StrLen | muduo/base/StringPiece.h:38-40 | strlen is the index of the first NUL, with no NUL before it |
| StringPieces.StringPiece.View | muduo/base/StringPiece.h:63-64 | the viewed bytes are length_ bytes from ptr_ |
| StringPieces.StringPiece.constructor | muduo/base/StringPiece.h:34-36 | a default piece is NULL with length 0 and views nothing |
| StringPieces.StringPiece.FromCString | muduo/base/StringPiece.h:38-44 | a piece of a C string views the bytes before its first NUL |
| StringPieces.StringPiece.FromString | muduo/base/StringPiece.h:46-52 | a piece of a string views the whole string |
| StringPieces.StringPiece.FromRange | muduo/base/StringPiece.h:54-55 | a (pointer, length) piece views exactly len bytes from the pointer |
| StringPieces.StringPiece.Size | muduo/base/StringPiece.h:64 | size() is the number of viewed bytes |
| StringPieces.StringPiece.Empty | muduo/base/StringPiece.h:65 | empty() holds exactly when nothing is viewed |
| StringPieces.StringPiece.At | muduo/base/StringPiece.h:78 | operator[](i) is the i-th viewed byte |
| StringPieces.StringPiece.Clear | muduo/base/StringPiece.h:67 | clear() leaves a NULL piece viewing nothing |
| StringPieces.StringPiece.Set | muduo/base/StringPiece.h:68 | set(buffer, len) views exactly len bytes of buffer |
| StringPieces.StringPiece.SetCString | muduo/base/StringPiece.h:69-72 | set(str) views str up to its first NUL |
| StringPieces.StringPiece.RemovePrefix | muduo/base/StringPiece.h:80-83 | remove_prefix(n) drops the first n viewed bytes |
| StringPieces.StringPiece.RemoveSuffix | muduo/base/StringPiece.h:85-87 | remove_suffix(n) drops the last n viewed bytes and keeps the pointer |
| StringPieces.StringPiece.AsString | muduo/base/StringPiece.h:118-120 | as_string() copies exactly the viewed bytes |
| NetBuffer.Buffer.ZoneSizes | muduo/net/Buffer.h:63-70 | readableBytes is the length of the readable content, prependableBytes is where it starts, and prependable, readable and writable bytes add up to the size of the storage |
| NetBuffer.Buffer.constructor | muduo/net/Buffer.h:44-52 | a new buffer has 8 + 1024 bytes, both indices at 8, no content, 1024 writable and 8 prependable bytes |
| NetBuffer.Buffer.Swap | muduo/net/Buffer.h:56-61 | storage and both indices are exchanged, and with them the readable contents |
| NetBuffer.Buffer.FindCRLFFrom | muduo/net/Buffer.h:81-87 | the result is the first "\r\n" at or after start that ends in the written area, or none when there is no such pair |
| NetBuffer.Buffer.FindCRLF | muduo/net/Buffer.h:75-80 | the first "\r\n" in the readable content, or none |
| NetBuffer.Buffer.RetrieveAll | muduo/net/Buffer.h:121-125 | both indices go back to kCheapPrepend and nothing is readable |
| NetBuffer.Buffer.Retrieve | muduo/net/Buffer.h:92-103 | the first len readable bytes are consumed; taking them all resets both indices to kCheapPrepend |
| NetBuffer.Buffer.RetrieveUntil | muduo/net/Buffer.h:105-110 | the content becomes everything from end up to writerIndex |
| NetBuffer.Buffer.RetrieveInt32 | muduo/net/Buffer.h:112-113 | four readable bytes are consumed |
| NetBuffer.Buffer.RetrieveInt16 | muduo/net/Buffer.h:115-116 | two readable bytes are consumed |
| NetBuffer.Buffer.RetrieveInt8 | muduo/net/Buffer.h:118-119 | one readable byte is consumed |
| NetBuffer.Buffer.RetrieveAsString | muduo/net/Buffer.h:132-138 | the returned len bytes followed by the new content are the old content |
| NetBuffer.Buffer.RetrieveAllAsString | muduo/net/Buffer.h:127-130 | the result is the whole old content and the buffer is left empty |
| NetBuffer.Buffer.ToStringPiece | muduo/net/Buffer.h:140-143 | the piece views exactly the readable content |
| NetBuffer.Buffer.MakeSpace | muduo/net/Buffer.h:319-338 | afterwards len bytes are writable and the content is unchanged; without room the array grows to writerIndex + len keeping its bytes, otherwise the content moves down to kCheapPrepend |
| NetBuffer.Buffer.EnsureWritableBytes | muduo/net/Buffer.h:163-170 | len bytes become writable with the content unchanged; nothing moves when there was room already |
| NetBuffer.Buffer.HasWritten | muduo/net/Buffer.h:182-185 | the next len writable bytes join the content |
| NetBuffer.Buffer.Append | muduo/net/Buffer.h:150-160 | the content becomes old content + data; with enough room nothing moves and writerIndex grows by the length |
| NetBuffer.Buffer.AppendPiece | muduo/net/Buffer.h:145-148 | the piece's bytes are appended to the content |
| NetBuffer.Buffer.AppendInt32 | muduo/net/Buffer.h:191-195 | the 4-byte network-order image of x is appended |
| NetBuffer.Buffer.AppendInt16 | muduo/net/Buffer.h:197-201 | the 2-byte network-order image of x is appended |
| NetBuffer.Buffer.AppendInt8 | muduo/net/Buffer.h:203-206 | the single byte of x is appended |
| NetBuffer.Buffer.PeekInt32 | muduo/net/Buffer.h:239-245 | the result is the signed 32-bit value whose network image is the first four readable bytes |
| NetBuffer.Buffer.PeekInt16 | muduo/net/Buffer.h:247-253 | the result is the signed 16-bit value whose network image is the first two readable bytes |
| NetBuffer.Buffer.PeekInt8 | muduo/net/Buffer.h:255-260 | the result is the signed value of the first readable byte |
| NetBuffer.Buffer.ReadInt32 | muduo/net/Buffer.h:213-218 | the value's 4-byte image followed by the new content is the old content |
| NetBuffer.Buffer.ReadInt16 | muduo/net/Buffer.h:220-225 | the value's 2-byte image followed by the new content is the old content |
| NetBuffer.Buffer.ReadInt8 | muduo/net/Buffer.h:227-232 | the value's byte followed by the new content is the old content |
| NetBuffer.Buffer.Prepend | muduo/net/Buffer.h:283-289 | the content becomes data + old content, in the same array, readerIndex moved back by the length |
| NetBuffer.Buffer.PrependInt32 | muduo/net/Buffer.h:266-270 | the 4-byte network image of x is prepended |
| NetBuffer.Buffer.PrependInt16 | muduo/net/Buffer.h:272-276 | the 2-byte network image of x is prepended |
| NetBuffer.Buffer.PrependInt8 | muduo/net/Buffer.h:278-281 | the byte of x is prepended |
| NetBuffer.Buffer.Shrink | muduo/net/Buffer.h:292-299 | the content moves to a fresh array starting at kCheapPrepend with at least reserve writable bytes |
| Text.DigitChar | muduo/base/LogStream.cpp:24-29 | digits 0-9 are '0'..'9' and 10-15 are 'A'..'F', as the two digit tables hold them |
| Text.DigitValue | muduo/base/LogStream.cpp:24-29 | every value below 16 it gives back names the character it was read from |
| Text.DigitInverse | muduo/base/LogStream.cpp:24-29 | reading a digit character back gives the digit |
| Text.DigitsRoundTrip | muduo/base/LogStream.cpp:33-53 | the digits of n in base 10 or 16, read back, are n |
| Text.DigitsShape | muduo/base/LogStream.cpp:38-43 | a rendering starts with '0' exactly when the number is zero |
| Text.DigitsLength | muduo/base/LogStream.cpp:38-43 | a number below base^k has at most k digits |
| Text.DecimalString | muduo/base/LogStream.cpp:45-48 | the rendering is non-empty and starts with '-' exactly for negative numbers |
| Text.DecimalRoundTrip | muduo/base/LogStream.cpp:33-53 | reading the decimal rendering back gives the number |
| Text.DecimalInjective | muduo/base/LogStream.cpp:33-53 | different numbers have different decimal renderings |
| LogStreams.Widen | muduo/base/LogStream.cpp:117-127 | short and unsigned short are written as int and unsigned int; other kinds are kept |
| LogStreams.WidenKeepsValue | muduo/base/LogStream.cpp:117-127 | widening keeps every value of the narrow type in range and keeps signedness |
| LogStreams.KindsFit64 | muduo/base/LogStream.cpp:129-163 | every integer kind's values fit in 64 bits |
| LogStreams.ConvertStep | muduo/base/LogStream.cpp:38-43 | the truncating remainder indexes the mirrored table at the last decimal digit of abs(i), and the quotient keeps the sign |
| LogStreams.LowDigitsReversed | muduo/base/LogStream.cpp:50 | reversing the least-significant-first digit stream gives the usual rendering |
| LogStreams.SixtyFourBitDigits | muduo/base/LogStream.cpp:99-105 | a 64-bit value has at most 20 decimal digits (19 when negative) and 16 hex digits, so 32 free characters always suffice |
| LogStreams.DecimalStep | muduo/base/LogStream.cpp:38-43 | one round of the do-while appends the next digit and moves the quotient toward zero |
| LogStreams.HexStep | muduo/base/LogStream.cpp:62-67 | one round of the hex do-while appends the next digit |
| LogStreams.ReverseRange | muduo/base/LogStream.cpp:50 | std::reverse leaves the range reversed and everything outside it unchanged |
| LogStreams.EmitReversedDecimal | muduo/base/LogStream.cpp:35-48 | the loop and the sign write the low digits of abs(value), then '-' for a negative value, in at most 20 characters |
| LogStreams.Convert | muduo/base/LogStream.cpp:32-53 | buf holds the decimal rendering of value followed by NUL, the result is its length, and nothing before buf is touched |
| LogStreams.EmitHexDigits | muduo/base/LogStream.cpp:59-67 | the loop writes the hex digits of value least significant first, at most 16 |
| LogStreams.ConvertHex | muduo/base/LogStream.cpp:57-73 | buf holds the upper-case hex rendering followed by NUL, and the result is its length |
| LogStreams.FormatPointer | muduo/base/LogStream.cpp:170-174 | the text written at the cursor is "0x" followed by the hex digits of the address |
| LogStreams.CStrLen | muduo/base/LogStream.h:121-125 | strlen is the index of the first NUL |
| LogStreams.FixedBuffer.constructor | muduo/base/LogStream.h:27-31 | a new buffer has SIZE characters and holds none |
| LogStreams.FixedBuffer.AsString | muduo/base/LogStream.h:63 | asString holds as many characters as the cursor is past the start |
| LogStreams.FixedBuffer.Length | muduo/base/LogStream.h:49 | length() is the number of held characters |
| LogStreams.FixedBuffer.Avail | muduo/base/LogStream.h:53 | length() plus avail() is the capacity |
| LogStreams.FixedBuffer.Append | muduo/base/LogStream.h:38-46 | the text is appended only when strictly more than its length is free; otherwise nothing changes |
| LogStreams.FixedBuffer.Add | muduo/base/LogStream.h:54 | the len characters at the cursor join the held text |
| LogStreams.FixedBuffer.Reset | muduo/base/LogStream.h:56 | nothing is held afterwards |
| LogStreams.LogStream.constructor | muduo/base/LogStream.h:81-85 | a stream starts with an empty small buffer |
| LogStreams.LogStream.WriteBool | muduo/base/LogStream.h:87-91 | "1" or "0" is appended when there is room, otherwise nothing changes |
| LogStreams.LogStream.WriteChar | muduo/base/LogStream.h:112-116 | the character is appended when there is room |
| LogStreams.LogStream.WriteCString | muduo/base/LogStream.h:121-125 | the characters before the NUL are appended when there is room |
| LogStreams.LogStream.WriteString | muduo/base/LogStream.h:127-145 | the whole string or piece is appended when there is room |
| LogStreams.LogStream.FormatInteger | muduo/base/LogStream.cpp:107-115 | with at least 32 characters free the decimal rendering is appended, otherwise nothing changes |
| LogStreams.LogStream.WriteInteger | muduo/base/LogStream.cpp:117-163 | every integer overload appends the decimal rendering under the same room rule |
| LogStreams.LogStream.WritePointer | muduo/base/LogStream.cpp:165-177 | with at least 32 characters free "0x" and the hex address are appended, otherwise nothing changes |
| LogStreams.LogStream.Append | muduo/base/LogStream.h:147 | the first len characters are appended under the buffer's room rule |
| LogStreams.LogStream.ResetBuffer | muduo/base/LogStream.h:149 | the stream holds nothing afterwards |
| LogStreams.ReversedRendering | muduo/base/LogStream.cpp:38-50 | reversing the digits written lowest first, followed by '-' for a negative value, gives the decimal text of the value |
| LogStreams.HexRendering | muduo/base/LogStream.cpp:62-70 | reversing the hex digits written lowest first gives the upper-case hex text of the value |
| Logging.LevelOf | muduo/base_bak/Logging.h:13-22 | the level with enumerator n, for every n below NUM_LOG_LEVELS |
| Logging.LevelsEnumerated | muduo/base_bak/Logging.h:13-22 | the enumerators are 0 to NUM_LOG_LEVELS - 1 without gaps or repeats, ordered TRACE < DEBUG < INFO < WARN < ERROR < FATAL |
| Logging.EmitsGate | muduo/base_bak/Logging.h:101-114 | LOG_TRACE, LOG_DEBUG and LOG_INFO write a record exactly when the global level is at most theirs; every other statement always writes one |
| Logging.EmitsMonotone | muduo/base_bak/Logging.h:101-108 | lowering the global level never silences a statement |
| Logging.LastIndex | muduo/base_bak/Logging.h:33 | strrchr: the last index holding c, or none when c does not occur |
| Logging.BasenameHasNoSlash | muduo/base_bak/Logging.h:33-38 | what follows the last '/' holds no '/' |
| Logging.SourceFileBasename | muduo/base_bak/Logging.h:28-50 | for a literal path both constructors keep the same data_ and size_: exactly the text after the last '/', or the whole path when there is none |
| Logging.FromArray | muduo/base_bak/Logging.h:28-38 | the array constructor: data_ after the last '/' and size_ N - 1 less that offset; by Logging.SourceFileBasename it keeps exactly the text after the last '/' |
| Logging.FromCString | muduo/base_bak/Logging.h:41-50 | the const char* constructor: data_ after the last '/' and size_ the strlen of the rest; by Logging.SourceFileBasename it agrees with the array constructor |
| Logging.CheckNotNullIdentity | muduo/base_bak/Logging.h:127-133 | the pointer comes back unchanged, and a record is written exactly for a null pointer, at level FATAL and holding the names text |
| Logging.CheckNotNull | muduo/base_bak/Logging.h:127-133 | CheckNotNull(file, line, names, ptr); by Logging.CheckNotNullIdentity the pointer comes back unchanged and only a null one writes a FATAL record |
| LogFiles.Wrote | muduo/base/LogFile.cpp:62-66 | fwrite_unlocked never reports more bytes than it was asked to write |
| LogFiles.WriteLoop | muduo/base/LogFile.cpp:34-48 | the retry loop never loses what was written and never passes len |
| LogFiles.Accepted | muduo/base/LogFile.cpp:29-48 | at most len bytes of the line reach the file |
| LogFiles.WriteLoopCompletes | muduo/base/LogFile.cpp:34-48 | when every write takes at least one byte the loop runs until the whole line is written |
| LogFiles.AcceptedAll | muduo/base/LogFile.cpp:29-48 | a line is written whole when no write comes back empty |
| LogFiles.AcceptedStopsAtZero | muduo/base/LogFile.cpp:36-45 | a write that reports 0 ends the loop with only the bytes written before it |
| LogFiles.PeriodStartIsMidnight | muduo/base/LogFile.cpp:130-158 | the period start is the multiple of 86400 at or before now, and two times share a period exactly when they share a day |
| LogFiles.LogFileNameShape | muduo/base/LogFile.cpp:169-188 | a file name starts with the basename and ends in ".log", and different pids give different names |
| LogFiles.LogFileName | muduo/base/LogFile.cpp:169-188 | getLogFileName: basename, time text, host name, '.', pid, ".log"; by LogFiles.LogFileNameShape it starts with the basename, ends in ".log" and tells pids apart |
| LogFiles.CountCycle | muduo/base/LogFile.cpp:130-148 | with no size roll, count_ after k appends is k mod 1026, so the clock is read on exactly one append in every 1026 |
| LogFiles.File.constructor | muduo/base/LogFile.cpp:15-22 | a new file has no contents, no flushes and writtenBytes_ 0 |
| LogFiles.File.Append | muduo/base/LogFile.cpp:29-51 | the file receives exactly the bytes the write loop accepted, and writtenBytes_ grows by len even when fewer were written |
| LogFiles.File.Flush | muduo/base/LogFile.cpp:53-56 | one more fflush |
| LogFiles.LogFile.constructor | muduo/base/LogFile.cpp:73-88 | a basename without '/' is required; count_ starts at 0, and the first roll opens a file named by getLogFileName unless the clock reads 0 |
| LogFiles.LogFile.RollFile | muduo/base/LogFile.cpp:152-167 | only a clock reading later than the last roll opens a new, empty file; it becomes the last roll and last flush time and its day the current period; otherwise nothing changes |
| LogFiles.LogFile.Append | muduo/base/LogFile.cpp:94-150 | the line goes to the current file; a file past rollSize rolls; otherwise count_ counts up, and past 1024 resets and reads the clock: a new day rolls, else more than flushInterval seconds since the last flush flushes |
| LogFiles.LogFile.Flush | muduo/base/LogFile.cpp:107-118 | the current file is flushed and its contents are unchanged |
| HttpRequests.MethodRoundTrip | muduo/net/http/HttpRequest.h:39-97 | methodString and setMethod are inverse on the five methods: each method's token parses back to it, every token that parses is its method's token, and "UNKNOWN" parses to kInvalid |
| HttpRequests.ParseMethod | muduo/net/http/HttpRequest.h:39-68 | the method setMethod picks for a token, exact matches only; by HttpRequests.MethodRoundTrip it inverts methodString on the five methods |
| HttpRequests.MethodString | muduo/net/http/HttpRequest.h:73-97 | methodString(), "UNKNOWN" for kInvalid; by HttpRequests.MethodRoundTrip each method's token parses back to it |
| HttpRequests.SkipSpaces | muduo/net/http/HttpRequest.h:116-119 | the scan stops at the first non-space character after i, or at the end, and passes only spaces |
| HttpRequests.TrimmedLength | muduo/net/http/HttpRequest.h:122-125 | the dropped tail is all spaces and the kept part does not end with a space |
| HttpRequests.TrimShape | muduo/net/http/HttpRequest.h:113-125 | the value is a contiguous part of the text with only spaces removed around it, neither starts nor ends with a space, and trimming it again changes nothing |
| HttpRequests.TrimNoSpaces | muduo/net/http/HttpRequest.h:113-125 | a text with no space at either end is kept as it is |
| HttpRequests.HttpRequest.constructor | muduo/net/http/HttpRequest.h:27-31 | a new request has method kInvalid, version kUnknown, an empty path, no headers and receive time 0 |
| HttpRequests.HttpRequest.SetVersion | muduo/net/http/HttpRequest.h:33-34 | the version is set |
| HttpRequests.HttpRequest.SetMethod | muduo/net/http/HttpRequest.h:39-68 | on a request with no method yet, the method becomes the one the exact token names, or kInvalid, and the result says whether it is valid |
| HttpRequests.HttpRequest.SetPath | muduo/net/http/HttpRequest.h:99-100 | the path is exactly the range [start, end) |
| HttpRequests.HttpRequest.SetReceiveTime | muduo/net/http/HttpRequest.h:105-106 | the receive time is set |
| HttpRequests.HttpRequest.AddHeader | muduo/net/http/HttpRequest.h:111-127 | the headers gain, or overwrite, the entry from the text before the colon to the trimmed text after it, and nothing else changes |
| HttpRequests.HttpRequest.GetHeader | muduo/net/http/HttpRequest.h:129-138 | the stored value of the field, or "" when there is none |
| HttpRequests.HttpRequest.Swap | muduo/net/http/HttpRequest.h:143-149 | method, path, receive time and headers are exchanged; both versions stay where they were |
| HttpRequests.AddThenGet | muduo/net/http/HttpRequest.h:126-138 | after addHeader the field reads back its trimmed value and every other field reads back what it did before |
| HttpContexts.RunSnoc | muduo/net/http/HttpContext.h:44-55 | one more operation is one more step from the state reached so far |
| HttpContexts.NeverExpectBody | muduo/net/http/HttpContext.h:44-55 | no sequence of operations enters kExpectBody, and the state is the one the last operation sets |
| HttpContexts.HttpContext.ExpectRequestLine | muduo/net/http/HttpContext.h:32-33 | expectRequestLine() is the state test for kExpectRequestLine; the constructor and reset() make it hold |
| HttpContexts.HttpContext.ExpectHeaders | muduo/net/http/HttpContext.h:35-36 | expectHeaders() is the state test for kExpectHeaders; receiveRequestLine() makes it hold |
| HttpContexts.HttpContext.ExpectBody | muduo/net/http/HttpContext.h:38-39 | expectBody() is the state test for kExpectBody; by HttpContexts.NeverExpectBody no sequence of operations makes it hold |
| HttpContexts.HttpContext.GotAll | muduo/net/http/HttpContext.h:41-42 | gotAll() is the state test for kGotAll; receiveHeaders() makes it hold |
| HttpContexts.ExactlyOneQuery | muduo/net/http/HttpContext.h:32-42 | exactly one of expectRequestLine, expectHeaders, expectBody and gotAll holds, and together they tell the states apart |
| HttpContexts.HttpContext.constructor | muduo/net/http/HttpContext.h:25-28 | a new context expects a request line and holds a default request |
| HttpContexts.HttpContext.ReceiveRequestLine | muduo/net/http/HttpContext.h:44-45 | the state becomes kExpectHeaders, one step of the state machine |
| HttpContexts.HttpContext.ReceiveHeaders | muduo/net/http/HttpContext.h:47-48 | the state becomes kGotAll directly, one step of the state machine |
| HttpContexts.HttpContext.Reset | muduo/net/http/HttpContext.h:50-55 | the state returns to kExpectRequestLine and the request's method, path, receive time and headers to a new request's, while its version is kept |
| HttpContexts.ContextNeverExpectsBody | muduo/net/http/HttpContext.h:38-39 | expectBody() is false for every context reached by its operations |
| HttpContextsBak.HttpContext.constructor | muduo/net_bak/http_bak/HttpContext.h:25-28 | a new context expects a request line and holds a default request |
| HttpContextsBak.HttpContext.ReceiveRequestLine | muduo/net_bak/http_bak/HttpContext.h:44-45 | the state becomes kExpectHeaders |
| HttpContextsBak.HttpContext.ReceiveHeaders | muduo/net_bak/http_bak/HttpContext.h:47-48 | the state becomes kGotAll |
| HttpContextsBak.HttpContext.Reset | muduo/net_bak/http_bak/HttpContext.h:51-56 | the state returns to kExpectRequestLine and the request to a default one, except its version |
| HttpContextsBak.AgreesWithMain | muduo/net_bak/http_bak/HttpContext.h:32-56 | this copy and the other one, after the same operations, are in the same state, and neither expects a body |
| HttpContextsBak.HttpContext.ExpectRequestLine | muduo/net_bak/http_bak/HttpContext.h:32-33 | expectRequestLine() is the state test for kExpectRequestLine |
| HttpContextsBak.HttpContext.ExpectHeaders | muduo/net_bak/http_bak/HttpContext.h:35-36 | expectHeaders() is the state test for kExpectHeaders |
| HttpContextsBak.HttpContext.ExpectBody | muduo/net_bak/http_bak/HttpContext.h:38-39 | expectBody() is the state test for kExpectBody; by HttpContextsBak.AgreesWithMain it never holds |
| HttpContextsBak.HttpContext.GotAll | muduo/net_bak/http_bak/HttpContext.h:41-42 | gotAll() is the state test for kGotAll |
| Timers.SequenceCounter.constructor | muduo/net_bak/Timer.cpp:6 | the process-wide counter of created timers starts at 0 |
| Timers.Timer.constructor | muduo/net_bak/Timer.h:19-25 | a timer keeps its callback, expiration and interval, repeats exactly when the interval is positive, and takes the counter's next value as its sequence number |
| Timers.Timer.Restart | muduo/net_bak/Timer.cpp:8-19 | a repeating timer expires next at now + interval, later than now; any other timer gets the invalid timestamp |
| TimerQueues.SortedPairwise | muduo/net_bak/TimerQueue.cpp:263-291 | in timers_ every entry is before every later one, not only its neighbour |
| TimerQueues.CountDueSplits | muduo/net_bak/TimerQueue.cpp:203-208 | in timers_ the lower_bound of (now, max) splits the entries due at now from the later ones |
| TimerQueues.HowMuchTimeFromNow | muduo/net_bak/TimerQueue.cpp:35-49 | the delay is when - now, raised to at least 100 microseconds, as whole seconds and a nanosecond part below one second |
| TimerQueues.ConsistentDistinct | muduo/net_bak/TimerQueue.cpp:155 | while timers_ and activeTimers_ agree, no timer is listed twice |
| TimerQueues.InsertSortedAt | muduo/net_bak/TimerQueue.cpp:278-280 | adding a pending timer at its ordered place keeps timers_ strictly ordered |
| TimerQueues.InsertConsistent | muduo/net_bak/TimerQueue.cpp:263-291 | insert keeps timers_ and activeTimers_ in step, and timers_ gains exactly the new entry |
| TimerQueues.RemoveConsistent | muduo/net_bak/TimerQueue.cpp:158-165 | erasing a pending timer from both sets keeps them in step and removes exactly that entry |
| TimerQueues.SplitConsistent | muduo/net_bak/TimerQueue.cpp:210-221 | removing a prefix from timers_ and its timers from activeTimers_ keeps the rest in step |
| TimerQueues.DueSplit | muduo/net_bak/TimerQueue.cpp:199-225 | the due prefix holds only timers due at now, the rest only later ones, and the rest stays consistent |
| TimerQueues.TimerQueue.constructor | muduo/net_bak/TimerQueue.cpp:94-105 | a new queue has no timers and no cancelled timers, is not running callbacks, and has not armed the timerfd |
| TimerQueues.TimerQueue.Insert | muduo/net_bak/TimerQueue.cpp:263-291 | the timer joins both sets, and the result says whether it is now the earliest, because the list was empty or it expires strictly first |
| TimerQueues.TimerQueue.ResetTimerfd | muduo/net_bak/TimerQueue.cpp:69-82 | the timerfd is armed for the expiration |
| TimerQueues.TimerQueue.AddTimerInLoop | muduo/net_bak/TimerQueue.cpp:139-150 | the timer is inserted, and the timerfd is re-armed for it exactly when it became the earliest |
| TimerQueues.TimerQueue.AddTimer | muduo/net_bak/TimerQueue.cpp:118-129 | a new timer with the next sequence number is made and added; the id returned is that sequence number |
| TimerQueues.TimerQueue.CancelInLoop | muduo/net_bak/TimerQueue.cpp:152-172 | a pending timer leaves both sets; a timer that is not pending is recorded as cancelled only while expired callbacks run |
| TimerQueues.TimerQueue.GetExpired | muduo/net_bak/TimerQueue.cpp:199-225 | the result is the prefix of timers_ due at now, in order; both sets keep only the later timers |
| TimerQueues.TimerQueue.Reinsert | muduo/net_bak/TimerQueue.cpp:236-241 | a repeating expired timer is restarted at now + interval and pending again |
| TimerQueues.TimerQueue.Reset | muduo/net_bak/TimerQueue.cpp:227-261 | exactly the expired timers that repeat and were not cancelled become pending again, restarted; the timerfd is then armed for the earliest pending timer when its time is valid |
| TimerQueues.TimerQueue.RearmEarliest | muduo/net_bak/TimerQueue.cpp:250-260 | the timerfd is armed for the earliest pending timer exactly when there is one with a valid time |
| TimerQueues.TimerQueue.RunExpired | muduo/net_bak/TimerQueue.cpp:183-192 | the expired callbacks run in order and the flag is cleared afterwards; the pending timers are the old ones minus those the callbacks cancelled, with their entries unchanged; every id in cancelingTimers was cancelled by a callback, and every cancelled id that was not pending beforehand, such as an expired timer, is recorded there |
| TimerQueues.TimerQueue.RunAndReset | muduo/net_bak/TimerQueue.cpp:183-195 | after the callbacks and reset, an expired timer is pending again, with expiration now + interval, exactly when it repeats and no callback cancelled it; a timer pending before stays, unchanged, unless cancelled; no other id becomes pending; the timerfd is armed for the new earliest timer |
| TimerQueues.TimerQueue.HandleRead | muduo/net_bak/TimerQueue.cpp:174-196 | the callbacks run are those of the timers due at now, in expiration order; afterwards a due timer is pending, restarted at now + interval, exactly when it repeats and was not cancelled; a timer not due stays pending, unchanged, unless cancelled; nothing new is pending; the timerfd is re-armed for the earliest remaining timer |
| TimerQueues.RanExactlyDue | muduo/net_bak/TimerQueue.cpp:174-225 | a pending timer runs in handleRead exactly when it is due at now |
| Channels.MaskValueRange | muduo/net/Channel.cpp:12-14 | an interest or event mask is 0 exactly when no bit is set, and fits the 16-bit poll field |
| Channels.EventConstants | muduo/net/Channel.cpp:12-14 | kNoneEvent is 0, kReadEvent is POLLIN or POLLPRI (3), kWriteEvent is POLLOUT (4) |
| Channels.WithReading | muduo/net_bak/Channel.h:64 | enableReading sets both read bits and leaves every other bit, the write bit included, as it was |
| Channels.WithWriting | muduo/net_bak/Channel.h:66 | enableWriting sets the write bit and changes no other bit |
| Channels.WithoutWriting | muduo/net_bak/Channel.h:67 | disableWriting clears the write bit and changes no other bit |
| Channels.WritingToggles | muduo/net_bak/Channel.h:66-67 | disabling writing undoes enabling it on a mask without the write bit, and enabling after disabling is the same as enabling |
| Channels.Pick | muduo/net/Channel.cpp:81-99 | a callback is called exactly when its condition on revents holds and it is set |
| Channels.AppendIncreasing | muduo/net/Channel.cpp:75-100 | a callback of a later step appended to calls of earlier steps keeps the call order |
| Channels.PickAppend | muduo/net/Channel.cpp:75-100 | adding one dispatch step after the earlier ones keeps the call order |
| Channels.DispatchFires | muduo/net/Channel.cpp:72-102 | close runs exactly on a hang-up without POLLIN, error exactly on ERR or NVAL, read exactly on IN, PRI or RDHUP, write exactly on OUT, each only when set, and in the order close, error, read, write |
| Channels.Dispatch | muduo/net/Channel.cpp:72-102 | the callbacks handleEventWithGuard calls; by Channels.DispatchFires each runs exactly on its event bits, in the order close, error, read, write |
| Channels.FlagName | muduo/net/Channel.cpp:108-121 | each flag prints as its own name followed by one space |
| Channels.FlagsTextStart | muduo/net/Channel.cpp:108-121 | the printed flags, when any, start with the initial of one of the flags in print order |
| Channels.SuffixAfter | muduo/net/Channel.cpp:107 | what follows the "fd: " prefix is the flags text |
| Channels.NoDuplicatesTail | muduo/net/Channel.cpp:108-121 | a print order without repeats stays so after its first flag, and that flag does not recur |
| Channels.ParseSkipsAbsent | muduo/net/Channel.cpp:108-121 | an unset flag prints nothing and so does not change how the rest reads back |
| Channels.ParseFlagsText | muduo/net/Channel.cpp:108-121 | reading the printed flags back gives exactly the set flags among those printed |
| Channels.PrintOrderComplete | muduo/net/Channel.cpp:108-121 | the print order IN PRI OUT HUP RDHUP ERR NVAL names every flag once |
| Channels.ReventsStringInjective | muduo/net/Channel.cpp:104-123 | reventsToString of one fd tells any two different event masks apart |
| Channels.ReventsString | muduo/net/Channel.cpp:104-123 | the fd, ": " and each set flag's name followed by a space, in the source's order; by Channels.ReventsStringInjective different masks print differently |
| Channels.Channel.ReventsToString | muduo/net_bak/Channel.h:76 | reventsToString() of the channel's fd and returned events, which is Channels.ReventsString |
| Channels.Delivered | muduo/net/Channel.cpp:52-69 | an untied channel, or a tied one whose owner is alive, dispatches; a tied one whose owner is gone runs nothing |
| Channels.Channel.constructor | muduo/net/Channel.cpp:16-26 | a new channel has no interest, no events, index -1, logs hang-ups, is untied, not handling, and has no callbacks |
| Channels.Channel.SetReadCallback | muduo/net_bak/Channel.h:36-39 | only the read callback changes |
| Channels.Channel.SetWriteCallback | muduo/net_bak/Channel.h:40-43 | only the write callback changes |
| Channels.Channel.SetCloseCallback | muduo/net_bak/Channel.h:44-47 | only the close callback changes |
| Channels.Channel.SetErrorCallback | muduo/net_bak/Channel.h:48-51 | only the error callback changes |
| Channels.Channel.Tie | muduo/net/Channel.cpp:33-37 | the channel is tied from now on |
| Channels.Channel.DoNotLogHup | muduo/net_bak/Channel.h:78 | hang-ups are no longer logged |
| Channels.Channel.SetRevents | muduo/net_bak/Channel.h:59 | revents is what the poller reported |
| Channels.Channel.SetIndex | muduo/net_bak/Channel.h:73 | index is the poller's value |
| Channels.Channel.Update | muduo/net/Channel.cpp:39-42 | the owning loop is asked to update the channel with its current interest |
| Channels.Channel.EnableReading | muduo/net_bak/Channel.h:64 | the interest gains the read bits only, and the change is pushed to the loop |
| Channels.Channel.EnableWriting | muduo/net_bak/Channel.h:66 | the interest gains the write bit only, isWriting then holds, and the change is pushed to the loop |
| Channels.Channel.DisableWriting | muduo/net_bak/Channel.h:67 | the interest loses the write bit only, isWriting then fails, and the change is pushed to the loop |
| Channels.Channel.DisableAll | muduo/net_bak/Channel.h:68 | the interest is empty, so isNoneEvent holds, and the change is pushed to the loop |
| Channels.Channel.IsNoneEvent | muduo/net_bak/Channel.h:61 | isNoneEvent() holds exactly for an empty interest; Channels.Channel.DisableAll makes it hold |
| Channels.Channel.IsWriting | muduo/net_bak/Channel.h:69 | isWriting() holds exactly when the write bit is in the interest; Channels.Channel.EnableWriting makes it hold |
| Channels.Channel.Remove | muduo/net/Channel.cpp:45-49 | only a channel with no interest asks its loop to remove it |
| Channels.Channel.HandleEvent | muduo/net/Channel.cpp:52-69 | the callbacks owed for the reported events run, or none when the tie does not resolve |
| Channels.Channel.HandleEventWithGuard | muduo/net/Channel.cpp:72-102 | the dispatched callbacks run in order and eventHandling is false again afterwards |
| PollPollers.Ignored | muduo/net_bak/poller_bak/PollPoller.cpp:98 | the ignored encoding -fd-1 of a valid descriptor is negative, so poll skips the slot |
| PollPollers.Owner | muduo/net_bak/poller_bak/PollPoller.cpp:123-128 | decoding a slot's descriptor always gives a non-negative descriptor |
| PollPollers.IgnoredRoundTrip | muduo/net_bak/poller_bak/PollPoller.cpp:98-128 | -fd-1 is negative for every descriptor and decodes back to it, and a plain descriptor decodes to itself |
| PollPollers.Slot | muduo/net_bak/poller_bak/PollPoller.cpp:88-99 | a rewritten slot holds the channel's interest, no returned events, and its descriptor ignored exactly when the interest is empty and plain otherwise |
| PollPollers.StaleIgnoredSlot | muduo/net_bak/poller_bak/PollPoller.cpp:88-99 | as written, the slot of any descriptor fd that is disabled and then re-enabled with some interest keeps the ignored descriptor -fd-1, where the intended slot holds fd |
| PollPollers.SlotAsWritten | muduo/net_bak/poller_bak/PollPoller.cpp:88-99 | the slot as written: -fd-1 with no interest, otherwise the descriptor the slot held before, with the new interest and no returned events |
| PollPollers.Reported | muduo/net_bak/poller_bak/PollPoller.cpp:46-49 | the slots with returned events are at most all the slots |
| PollPollers.Active | muduo/net_bak/poller_bak/PollPoller.cpp:46-51 | fillActiveChannels takes at most numEvents slots, and they are the first of the reported ones |
| PollPollers.ReportedStep | muduo/net_bak/poller_bak/PollPoller.cpp:46-59 | one step of the walk adds the slot exactly when it has returned events |
| PollPollers.ReportedMembers | muduo/net_bak/poller_bak/PollPoller.cpp:49 | a slot is reported exactly when it is in the array and has returned events |
| PollPollers.ReportedMonotone | muduo/net_bak/poller_bak/PollPoller.cpp:46-60 | the slots reported in a prefix of the array are a prefix of all those reported |
| PollPollers.ReportedBefore | muduo/net_bak/poller_bak/PollPoller.cpp:52-58 | with distinct descriptors, a slot's channel is not among those already collected |
| PollPollers.ActiveAtExit | muduo/net_bak/poller_bak/PollPoller.cpp:46-47 | the walk stops at the array's end or once numEvents slots are taken, and then it has taken exactly the first numEvents reported slots |
| PollPollers.ActiveAll | muduo/net_bak/poller_bak/PollPoller.cpp:25-30 | when poll's count covers every reported slot, every reported slot is taken |
| PollPollers.RegistryAt | muduo/net_bak/poller_bak/PollPoller.cpp:84-89 | a registered descriptor's index names a slot within the array holding fd or -fd-1 |
| PollPollers.RegistrySlot | muduo/net_bak/poller_bak/PollPoller.cpp:123-129 | every slot's decoded descriptor is registered with that slot as its index |
| PollPollers.RegistryDistinct | muduo/net_bak/poller_bak/PollPoller.cpp:71-79 | no descriptor owns two slots |
| PollPollers.RegistryAppend | muduo/net_bak/poller_bak/PollPoller.cpp:67-79 | appending a new descriptor's slot with index the old size keeps the registry |
| PollPollers.RegistryRewrite | muduo/net_bak/poller_bak/PollPoller.cpp:81-99 | rewriting a registered slot keeps the registry |
| PollPollers.RegistryRevents | muduo/net_bak/poller_bak/PollPoller.cpp:56 | the registry depends on the slots' descriptors only, not on returned events |
| PollPollers.RegistryRemoveLast | muduo/net_bak/poller_bak/PollPoller.cpp:116-119 | popping the last slot and its descriptor keeps the registry |
| PollPollers.RegistryRemoveSwap | muduo/net_bak/poller_bak/PollPoller.cpp:120-131 | moving the last slot into the freed one, re-indexing its owner and popping keeps the registry, and the moved owner is another descriptor |
| PollPollers.FillActiveChannels | muduo/net_bak/poller_bak/PollPoller.cpp:43-61 | the channels returned are those of the first numEvents reported slots, in array order, each given its slot's events; every other channel's events are unchanged |
| PollPollers.PollPoller.constructor | muduo/net_bak/poller_bak/PollPoller.h:20-35 | a new poller has no slots and no channels, and the registry holds |
| PollPollers.PollPoller.UpdateChannel | muduo/net_bak/poller_bak/PollPoller.cpp:63-101 | a new channel's slot is appended, its index is the old size and it is registered; an existing channel's slot is rewritten in place and nothing else changes; the registry holds |
| PollPollers.PollPoller.RemoveChannel | muduo/net_bak/poller_bak/PollPoller.cpp:103-132 | the channel is unregistered and the array shrinks by one: the last slot is popped, or moves into the freed slot with its owner's index following it; the registry holds |
| PollPollers.PollPoller.Receive | muduo/net_bak/poller_bak/PollPoller.cpp:25 | the kernel's returned events land in the slots and nothing else changes |
| PollPollers.PollPoller.SlotChannels | muduo/net_bak/poller_bak/PollPoller.cpp:52-55 | the assertions of fillActiveChannels hold under the registry: each plain slot's descriptor is registered to a channel with that descriptor, and no two slots share one |
| PollPollers.PollPoller.Poll | muduo/net_bak/poller_bak/PollPoller.cpp:22-41 | a failed poll returns no channels; otherwise the active channels are exactly those of the reported slots, in array order, each with its slot's events |
| EPollPollers.WatchedOthers | muduo/net_bak/poller_bak/EPollPoller.cpp:156-163 | an epoll_ctl call leaves every other descriptor's registration as it was |
| EPollPollers.WatchedOwn | muduo/net_bak/poller_bak/EPollPoller.cpp:156-173 | after a successful ADD or MOD the descriptor is watched with the channel's mask; after a DEL, failed or not, it is not watched |
| EPollPollers.CtlOutcome | muduo/net_bak/poller_bak/EPollPoller.cpp:163-173 | a non-negative result succeeds; a failing DEL is only logged; a failing ADD or MOD is fatal |
| EPollPollers.UpdateStep | muduo/net_bak/poller_bak/EPollPoller.cpp:97-132 | updateChannel always ends in kAdded or kDeleted, and issues DEL exactly when it ends in kDeleted |
| EPollPollers.UpdateKeepsMirror | muduo/net_bak/poller_bak/EPollPoller.cpp:93-133 | if the kernel watches a channel exactly when it is kAdded before updateChannel, the same holds after it unless the call was fatal |
| EPollPollers.RemoveCalls | muduo/net_bak/poller_bak/EPollPoller.cpp:149-152 | removeChannel issues at most one call, a DEL of its own descriptor, and exactly when the channel is kAdded |
| EPollPollers.RemoveUnwatches | muduo/net_bak/poller_bak/EPollPoller.cpp:135-154 | after removeChannel, from kAdded or from kDeleted, the kernel no longer watches the descriptor |
| EPollPollers.Grown | muduo/net_bak/poller_bak/EPollPoller.cpp:59-62 | the returned-event list doubles exactly when a wait filled it, and otherwise keeps its size |
| EPollPollers.FillActiveChannels | muduo/net_bak/poller_bak/EPollPoller.cpp:75-91 | the active channels are the first numEvents returned entries' channels, in order, each given its entry's events; every other channel's events are unchanged |
| EPollPollers.EPollPoller.constructor | muduo/net_bak/poller_bak/EPollPoller.cpp:32-41 | a new poller has no channels, has issued no calls, and its event list holds 16 entries |
| EPollPollers.EPollPoller.Update | muduo/net_bak/poller_bak/EPollPoller.cpp:156-174 | exactly one epoll_ctl call with the channel's descriptor and mask is issued, and its result follows the error policy |
| EPollPollers.EPollPoller.UpdateChannel | muduo/net_bak/poller_bak/EPollPoller.cpp:93-133 | the channel is mapped under its descriptor, moves to the state of the registration machine and issues that step's call; unless the call was fatal the kernel watches exactly the kAdded channels |
| EPollPollers.EPollPoller.RemoveChannel | muduo/net_bak/poller_bak/EPollPoller.cpp:135-154 | the channel is unmapped and back in kNew, a DEL is issued only if it was kAdded, and the result is never fatal |
| EPollPollers.EPollPoller.Poll | muduo/net_bak/poller_bak/EPollPoller.cpp:48-73 | a positive wait hands out that many channels in order with their events and doubles a filled list; zero or an error hands out nothing |
| EventLoops.Ids | muduo/net_bak/EventLoop.cpp:265-268 | the functors run are named one by one, in order |
| EventLoops.AnyQuitsMeans | muduo/net_bak/EventLoop.cpp:137-144 | a drain sets quit exactly when one of the functors it runs calls quit |
| EventLoops.QuitByMeans | muduo/net_bak/EventLoop.cpp:110-130 | loop() has stopped after k iterations exactly when the drain of one of those iterations called quit |
| EventLoops.Fds | muduo/net_bak/EventLoop.cpp:121-126 | the descriptors handled in one iteration are those of the active channels, in order |
| EventLoops.SpawnedMembers | muduo/net_bak/EventLoop.cpp:255-270 | a functor is pending after a drain exactly when one of the functors run queued it |
| EventLoops.SpawnedQuiet | muduo/net_bak/EventLoop.cpp:255-270 | a drain of functors that queue nothing leaves nothing pending |
| EventLoops.QuietDrain | muduo/net_bak/EventLoop.cpp:255-270 | when no pending functor queues another, the first drain runs them all in order, later drains find nothing, and nothing wakes the loop |
| EventLoops.LoopStep | muduo/net_bak/EventLoop.cpp:110-130 | one more iteration of loop() adds that iteration's handled descriptors, functors run, wakeups and quit to the record of the earlier ones |
| EventLoops.ThreadSlot.constructor | muduo/net_bak/EventLoop.cpp:22 | a thread starts with no loop of its own |
| EventLoops.EventLoop.constructor | muduo/net_bak/EventLoop.cpp:59-86 | a new loop is not looping, not quitting, not handling and not draining, has nothing pending and no current channel, and its wakeup channel belongs to it, has a read callback and is registered for reading |
| EventLoops.EventLoop.Wakeup | muduo/net_bak/EventLoop.cpp:225-234 | one write to the wakeup descriptor |
| EventLoops.EventLoop.IsInLoopThread | muduo/net/EventLoop.h:94 | isInLoopThread(): the caller is the thread that owns the loop; EventLoops.EventLoop.Quit and EventLoops.EventLoop.QueueInLoop wake the loop according to it |
| EventLoops.EventLoop.Quit | muduo/net_bak/EventLoop.cpp:137-144 | quit is set, and the loop is woken exactly when the caller is another thread |
| EventLoops.EventLoop.QueueInLoop | muduo/net_bak/EventLoop.cpp:161-175 | the functor is appended to the pending list, and the loop is woken exactly when the caller is another thread or a drain is running |
| EventLoops.EventLoop.RunFunctor | muduo/net_bak/EventLoop.cpp:152 | running a functor on the loop thread records it, queues what it queues, and sets quit if it quits |
| EventLoops.EventLoop.RunInLoop | muduo/net_bak/EventLoop.cpp:147-159 | on the loop thread the functor runs at once; from another thread it is queued and the loop woken, and nothing runs |
| EventLoops.EventLoop.DoPendingFunctors | muduo/net_bak/EventLoop.cpp:255-270 | exactly the functors pending at the start run, in order; what they queue stays pending, one wakeup per functor so queued; the draining flag is cleared |
| EventLoops.EventLoop.Round | muduo/net_bak/EventLoop.cpp:112-129 | one iteration dispatches every active channel in order, each running what it owes, with the handling flag cleared afterwards, then drains the pending functors |
| EventLoops.EventLoop.Loop | muduo/net_bak/EventLoop.cpp:100-134 | loop() runs iterations until one whose drain called quit, and then stops looping; the record of handled descriptors, functors run, pending list and wakeups is that of those iterations |
| EventLoops.EventLoop.UpdateChannel | muduo/net_bak/EventLoop.cpp:199-204 | only this loop's channel, from the loop thread, is forwarded to the poller for update |
| EventLoops.EventLoop.RemoveChannel | muduo/net_bak/EventLoop.cpp:206-216 | only this loop's channel, from the loop thread, and during dispatch only the current or an inactive channel, is forwarded to the poller for removal |
| EventLoops.HandleAll | muduo/net_bak/EventLoop.cpp:121-126 | each active channel in turn handles its event, running exactly what it owes |
| EventLoops.ActiveList | muduo/net_bak/EventLoop.cpp:112-113 | activeChannels_ holds the poller's channels in its order |
| EventLoops.NewEventLoop | muduo/net_bak/EventLoop.cpp:59-81 | creating a second loop in one thread is fatal; otherwise the thread's slot records the new loop |
| EventLoops.DestroyEventLoop | muduo/net_bak/EventLoop.cpp:88-92 | destroying a loop clears its thread's slot |
| SocketsOps.ClassifyAcceptError | muduo/net/SocketsOps.cpp:107-132 | every accept failure falls in exactly one class: expected (EAGAIN, ECONNABORTED, EINTR, EPROTO, EPERM, EMFILE), unexpected (EBADF, EFAULT, EINVAL, ENFILE, ENOBUFS, ENOMEM, ENOTSOCK, EOPNOTSUPP) or unknown |
| SocketsOps.Accept | muduo/net/SocketsOps.cpp:93-135 | the descriptor comes back as accept4 gave it and errno is restored; a failure is fatal exactly when its error is not an expected one |
| SocketsOps.AcceptListsDisjoint | muduo/net/SocketsOps.cpp:109-125 | no errno is both expected and unexpected |
| SocketsOps.GetSocketError | muduo/net/SocketsOps.cpp:203-216 | a failing getsockopt reports errno, a successful one the pending SO_ERROR value |
| SocketsOps.HostToNetwork16 | muduo/net/SocketsOps.cpp:196 | the port is stored as two bytes, most significant first |
| SocketsOps.NetworkToHost16 | muduo/net/SocketsOps.cpp:181 | two network-order bytes denote a 16-bit port, high byte first |
| SocketsOps.PortRoundTrip | muduo/net/SocketsOps.cpp:181-196 | a port stored in network order reads back as the same port |
| SocketsOps.PortBytesRoundTrip | muduo/net/SocketsOps.cpp:181-196 | any two port bytes read as a port and stored again are the same bytes |
| SocketsOps.FromIpPort | muduo/net/SocketsOps.cpp:192-201 | the address is AF_INET with the given address bytes and a port field that reads back as the given port |
| SocketsOps.ToIpPort | muduo/net/SocketsOps.cpp:176-183 | the text starts with the address and ':', and what follows is an unsigned decimal that parses back to the host-order port |
| SocketsOps.IpPortRoundTrip | muduo/net/SocketsOps.cpp:176-201 | toIpPort of the address fromIpPort built prints the port it was given, after the address and ':' |
| SocketsOps.SelfConnectMeans | muduo/net/SocketsOps.cpp:249-255 | a self-connection is exactly equal ports and addresses on both ends, and is symmetric |
| SocketsOps.IsSelfConnect | muduo/net/SocketsOps.cpp:249-255 | equal ports and equal addresses of the two ends; by SocketsOps.SelfConnectMeans it ignores only the family and is symmetric |
| TcpConnections.PlanSend | muduo/net_bak/TcpConnection.cpp:141-194 | sendInLoop never writes more than the payload |
| TcpConnections.SendConserves | muduo/net_bak/TcpConnection.cpp:149-189 | the bytes written at once followed by the bytes buffered are exactly the payload, except after EPIPE, when nothing is written or buffered |
| TcpConnections.SendIndirectBuffersAll | muduo/net_bak/TcpConnection.cpp:151-189 | with write interest on or bytes already buffered, nothing is written directly and the whole payload is buffered |
| TcpConnections.SendQueues | muduo/net_bak/TcpConnection.cpp:157-188 | write-complete is queued exactly when a direct write took everything and the callback is set; high-water is queued, with the new size, exactly when the buffered bytes cross the mark and the callback is set |
| TcpConnections.HighWaterOncePerCrossing | muduo/net_bak/TcpConnection.cpp:183-188 | once the buffer has crossed the high-water mark, further appends do not report it again until it drains below |
| TcpConnections.SendStream | muduo/net_bak/TcpConnection.cpp:151-189 | the bytes written so far followed by the buffered ones grow by exactly the payload |
| TcpConnections.TcpConnection.constructor | muduo/net_bak/TcpConnection.cpp:31-60 | a new connection is connecting, its channel on its socket has all four callbacks and no interest, the high-water mark is 64 MiB, nothing is buffered |
| TcpConnections.TcpConnection.SetWriteCompleteCallback | muduo/net/TcpConnection.h:89-90 | only whether a write-complete callback is set changes |
| TcpConnections.TcpConnection.SetHighWaterMarkCallback | muduo/net/TcpConnection.h:92-93 | the high-water callback and the mark are set together |
| TcpConnections.TcpConnection.SendInLoop | muduo/net_bak/TcpConnection.cpp:134-195 | nothing happens once disconnected; otherwise the bytes are written, buffered or dropped as the plan says, write interest is armed when bytes were buffered, and the written-then-pending stream grows by the payload unless the pipe broke |
| TcpConnections.TcpConnection.HandOver | muduo/net_bak/TcpConnection.cpp:189-193 | the rest is appended to the output buffer and write interest is turned on |
| TcpConnections.TcpConnection.Send | muduo/net_bak/TcpConnection.cpp:69-86 | nothing happens unless connected; on the loop thread the bytes are sent at once, from another thread the send is queued |
| TcpConnections.TcpConnection.SendPiece | muduo/net_bak/TcpConnection.cpp:89-106 | the same as send for the bytes the piece views |
| TcpConnections.TcpConnection.SendBuffer | muduo/net_bak/TcpConnection.cpp:109-127 | while connected, the buffer's readable bytes are sent or queued and the buffer is left empty; otherwise nothing changes |
| TcpConnections.TcpConnection.Shutdown | muduo/net_bak/TcpConnection.cpp:197-206 | a connected connection becomes disconnecting and its half-close is run or queued; any other state is left alone |
| TcpConnections.TcpConnection.ShutdownInLoop | muduo/net_bak/TcpConnection.cpp:208-216 | the write half is shut down only when nothing waits to be written |
| TcpConnections.TcpConnection.ConnectEstablished | muduo/net_bak/TcpConnection.cpp:223-235 | a connecting connection becomes connected, its channel is tied and reads, and the user is told it is up |
| TcpConnections.TcpConnection.ConnectDestroyed | muduo/net_bak/TcpConnection.cpp:237-248 | a still connected connection goes down, drops its interest and tells the user; in every case its channel is removed from the loop |
| TcpConnections.TcpConnection.HandleRead | muduo/net_bak/TcpConnection.cpp:250-293 | data goes to the message callback; end of file closes the connection; an error is reported; interest changes only on close |
| TcpConnections.TcpConnection.HandleWrite | muduo/net_bak/TcpConnection.cpp:296-339 | with write interest on, the written bytes leave the buffer; a drained buffer turns interest off, queues write-complete and finishes a pending half-close; without interest nothing is written; the written-then-pending stream is unchanged |
| TcpConnections.TcpConnection.HandleClose | muduo/net_bak/TcpConnection.cpp:341-357 | a connected or disconnecting connection becomes disconnected with no interest, then the connection and close callbacks run in that order |
| TcpConnections.TcpConnection.HandleError | muduo/net_bak/TcpConnection.cpp:359-364 | the socket's pending error is reported |
| Connectors.Classify | muduo/net_bak/Connector.cpp:77-111 | connect() proceeds exactly on 0, EINPROGRESS, EINTR or EISCONN, retries exactly on EAGAIN, EADDRINUSE, EADDRNOTAVAIL, ECONNREFUSED or ENETUNREACH, and gives up on every other error |
| Connectors.Backoff | muduo/net_bak/Connector.cpp:227 | the retry delay always lies between 500 ms and 30 s |
| Connectors.BackoffClosedForm | muduo/net_bak/Connector.cpp:227 | after k scheduled retries the delay is 500 ms doubled k times, or 30 s once that is reached |
| Connectors.BackoffSaturates | muduo/net_bak/Connector.cpp:227 | once the delay reaches 30 s it stays there |
| Connectors.Connector.constructor | muduo/net_bak/Connector.cpp:17-25 | a new connector does not want a connection, is disconnected with the initial 500 ms delay, and has no channel |
| Connectors.Connector.Start | muduo/net_bak/Connector.cpp:34-38 | the connector wants a connection; on the loop thread it attempts one at once, from another thread the start is queued |
| Connectors.Connector.StartInLoop | muduo/net_bak/Connector.cpp:40-52 | from disconnected, a connection is attempted only while one is wanted; otherwise nothing changes |
| Connectors.Connector.Connect | muduo/net_bak/Connector.cpp:73-112 | the socket is handed to connecting, to retry or closed, by the class of connect()'s error |
| Connectors.Connector.Restart | muduo/net_bak/Connector.cpp:115-122 | a connection is wanted and the retry count starts again; when connect proceeds the connector is connecting on a new channel for the socket that waits for writability, with the delay at 500 ms and no effect; on a retryable error the socket is closed, one retry is scheduled after 500 ms and the delay doubles; on any other error the socket is closed, nothing is scheduled and the connector stays disconnected with the delay at 500 ms |
| Connectors.Connector.Connecting | muduo/net_bak/Connector.cpp:124-140 | the connector is connecting, with a new channel on the socket that has write and error callbacks and watches for writability |
| Connectors.Connector.Stop | muduo/net_bak/Connector.cpp:55-60 | a connection is no longer wanted; on the loop thread a pending connect is abandoned at once, from another thread the stop is queued |
| Connectors.Connector.StopInLoop | muduo/net_bak/Connector.cpp:62-71 | a pending connect loses its channel, its socket is closed and the connector is disconnected with no retry; any other state is left alone |
| Connectors.Connector.RemoveAndResetChannel | muduo/net_bak/Connector.cpp:142-151 | the channel drops its interest and leaves the loop, its release is queued, and its socket is returned |
| Connectors.Connector.ResetChannel | muduo/net_bak/Connector.cpp:153-156 | the connector no longer holds a channel |
| Connectors.Connector.HandleWrite | muduo/net_bak/Connector.cpp:158-202 | a pending connect with a socket error or a self-connection retries; otherwise the connector is connected and hands the socket over, or closes it if a connection is no longer wanted |
| Connectors.Connector.HandleError | muduo/net_bak/Connector.cpp:204-213 | a failed pending connect releases its channel and goes through retry |
| Connectors.Connector.Retry | muduo/net_bak/Connector.cpp:216-233 | the socket is closed and the connector disconnected; while a connection is wanted another attempt is scheduled after the current delay and the delay doubles up to 30 s |
| EventLoopThreadPools.NextIndex | muduo/net/EventLoopThreadPool.cpp:57-61 | the cursor moves one on and wraps to 0 at the end, so it stays below the number of loops |
| EventLoopThreadPools.Picks | muduo/net/EventLoopThreadPool.cpp:46-64 | k successive getNextLoop calls return k loops |
| EventLoopThreadPools.PicksAt | muduo/net/EventLoopThreadPool.cpp:46-64 | the i-th of successive calls returns the loop under the cursor left by the i calls before it |
| EventLoopThreadPools.CursorInRange | muduo/net/EventLoopThreadPool.cpp:56-61 | however many calls are made, the cursor indexes a loop |
| EventLoopThreadPools.CursorFromZero | muduo/net/EventLoopThreadPool.cpp:15-61 | from the initial cursor 0, k calls leave the cursor at k mod the number of loops |
| EventLoopThreadPools.RoundRobin | muduo/net/EventLoopThreadPool.cpp:46-64 | successive calls from a new pool cycle through the loops in creation order, the i-th returning loop i mod n; with no loops every call returns the base loop |
| EventLoopThreadPools.EventLoopThreadPool.constructor | muduo/net/EventLoopThreadPool.cpp:11-17 | a new pool is not started, wants no threads, has its cursor at 0 and no loops |
| EventLoopThreadPools.EventLoopThreadPool.SetThreadNum | muduo/net/EventLoopThreadPool.h:28 | the number of threads is the one given |
| EventLoopThreadPools.EventLoopThreadPool.Start | muduo/net/EventLoopThreadPool.cpp:25-43 | a pool not yet started starts one thread per requested thread and keeps their loops in order; with no threads the init callback, if set, runs once on the base loop |
| EventLoopThreadPools.EventLoopThreadPool.GetNextLoop | muduo/net/EventLoopThreadPool.cpp:46-64 | with no loops the base loop is returned and the cursor stays; otherwise the loop under the cursor is returned and the cursor advances, wrapping |
| TcpServers.Snprintf | muduo/net/TcpServer.cpp:78-79 | snprintf keeps the longest prefix of the text that fits in size - 1 characters |
| TcpServers.TruncatedNamesCollide | muduo/net/TcpServer.cpp:78-81 | as written, connections 10000000 and 100000000 of a server on 255.255.255.255:65535 get the same name |
| TcpServers.TenMillionDigits | muduo/net/TcpServer.cpp:79 | the id 10000000 prints as its eight digits |
| TcpServers.AsWrittenAgreesWhenShort | muduo/net/TcpServer.cpp:78-81 | whenever the suffix fits the 32-byte buffer, the name as written is the intended one |
| TcpServers.ConnNameReadsBack | muduo/net/TcpServer.cpp:79-81 | the intended connection name ends in the decimal id, which reads back as that id |
| TcpServers.ConnNamesDistinct | muduo/net/TcpServer.cpp:78-81 | distinct ids give distinct intended connection names |
| TcpServers.ConnName | muduo/net/TcpServer.cpp:78-81 | the intended connection name: the server's name, ':', host:port, '#' and a decimal that parses back to the id |
| TcpServers.ConnNameAsWritten | muduo/net/TcpServer.cpp:78-81 | the name as written: a prefix of the intended name, cut to at most 31 characters after the server's name, as snprintf into buf[32] leaves it |
| TcpServers.DestroyTasks | muduo/net/TcpServer.cpp:39-46 | one runInLoop(connectDestroyed) per listed connection, on that connection's own loop, in list order |
| TcpServers.NextNameFresh | muduo/net/TcpServer.cpp:79-80 | the name of the current id or any later one was not issued to an earlier connection |
| TcpServers.NameLessTotal | muduo/net/TcpServer.h:89 | the key order of the std::map<string, ...> registry is total on distinct names |
| TcpServers.NameLessTransitive | muduo/net/TcpServer.h:89 | the key order of the registry is transitive |
| TcpServers.LeastName | muduo/net/TcpServer.h:89 | every non-empty set of registered names has a least one under the key order |
| TcpServers.WalkRegistry | muduo/net/TcpServer.cpp:39-46 | the registry is walked once over each registered name, in strictly ascending name order as std::map iterates, and connectDestroyed is handed to each connection's loop in that order |
| TcpServers.TcpServer.constructor | muduo/net/TcpServer.cpp:16-32 | a new server has the default connection and message callbacks, is not started or listening, numbers connections from 1, has no connections and a pool with no threads |
| TcpServers.TcpServer.SetConnectionCallback | muduo/net/TcpServer.h:66-67 | only the connection callback changes |
| TcpServers.TcpServer.SetMessageCallback | muduo/net/TcpServer.h:72-73 | only the message callback changes |
| TcpServers.TcpServer.SetWriteCompleteCallback | muduo/net/TcpServer.h:77-78 | only the write-complete callback changes |
| TcpServers.TcpServer.SetThreadInitCallback | muduo/net/TcpServer.h:54-55 | only the thread-init callback changes |
| TcpServers.TcpServer.SetThreadNum | muduo/net/TcpServer.cpp:49-53 | a non-negative number of threads is passed to the pool |
| TcpServers.TcpServer.Start | muduo/net/TcpServer.cpp:57-71 | the pool starts on the first call only; listen is handed to the loop whenever the acceptor is not listening; calling it again is harmless |
| TcpServers.TcpServer.Listen | muduo/net/Acceptor.cpp:38-42 | the acceptor is listening afterwards |
| TcpServers.TcpServer.NewConnection | muduo/net/TcpServer.cpp:73-112 | the connection gets the name of the current id, a name not yet registered, and the id advances; it belongs to the pool's next loop, carries the server's callbacks, closes through removeConnection, is registered under its name, and its establishment is handed to its loop |
| TcpServers.TcpServer.RemoveConnection | muduo/net/TcpServer.cpp:114-136 | removeConnectionInLoop is handed to the server's own loop |
| TcpServers.TcpServer.RemoveConnectionInLoop | muduo/net/TcpServer.cpp:138-159 | the registered connection's one entry is erased and connectDestroyed is queued on its own loop |
| TcpServers.TcpServer.Destroy | muduo/net/TcpServer.cpp:34-47 | connectDestroyed is handed once to the loop of every registered connection, in ascending name order, and the registry ends empty |

## Left out

- System calls are not modelled. That covers `read`/`readv`/`write`, `poll`/`epoll_wait`/`epoll_ctl`, `timerfd_*`, `eventfd`, `socket`/`bind`/`listen`/`accept4`/`connect`/`close`/`shutdown`/`getsockopt` and `inet_ntop`/`inet_pton`. Their results and `errno` are method parameters, and the calls a member issues are recorded in a log field.
- `Buffer::readFd` is only declared in muduo/net/Buffer.h, so it has no body to model.
- The Acceptor is reduced to its listening flag (`TcpServers.TcpServer.Listen`). Its `accept` loop and the idle-descriptor trick for `EMFILE` are descriptor juggling with no state of their own.
- Threads, mutexes, condition variables, `EventLoopThread` and the cross-thread wakeup are left out. Whether the caller is on the loop's thread is an input, a thread number compared with the loop's. `assertInLoopThread` becomes a precondition or that comparison.
- The `shared_ptr`/`weak_ptr` lifetimes behind `shared_from_this` and `Channel::tie` are reduced to an "owner alive" flag on the channel. Reference counts and object destruction are not modelled.
- The `Channel` destructor only asserts that no dispatch is in progress. It is not a member of the model. `Channels.Channel.HandleEventWithGuard` states that `eventHandling` is false after every dispatch.
- Floating point is not modelled. That covers `addTime`/`timeDifference`, the `double` timer interval and `LogStream::operator<<(double)`/`Fmt`. Times and intervals are integer microseconds, the invalid timestamp is 0, and a timestamp is valid when it is positive.
- Clock and calendar formatting is left out: `Timestamp::now`/`toString`, `Logger::Impl` time formatting, and the output, flush and abort plumbing of Logging.cpp. The strftime text, host name and pid in a log file's name are inputs.
- Timers are ordered by (expiration, sequence number) instead of (expiration, `Timer*` address). Address reuse and the `UINTPTR_MAX` sentinel are not modelled, and sequence numbers identify timers.
- The `Timer` accessors are the fields themselves. Callback, interval, repeat and sequence are `const` fields, so `Timers.Timer.Restart` can change only the expiration. The global `s_numCreated_` is a counter object passed to the constructor, not a static atomic.
- PollPollers.PollPoller.UpdateChannel: implements the corrected slot (PollPollers.Slot), which writes the channel's descriptor back when interest returns; the code as written keeps the ignored descriptor, as the first Findings row and PollPollers.StaleIgnoredSlot show.
- TcpServers.TcpServer.NewConnection: names connections with the corrected TcpServers.ConnName, the whole ":host:port#id" suffix; the code as written cuts the suffix to 31 characters (TcpServers.ConnNameAsWritten), so the contract's "a name not yet registered" holds only for the corrected name, as the second Findings row shows.
- TcpServers.TcpServer.Destroy: names are ordered by character code point, which agrees with `std::string` comparison for byte-sized characters only. The destructor resets each registered pointer and leaves the entries in place; the model empties the registry instead, since the server object is gone afterwards.
- `nextConnId_` is an `int` in the source. Its overflow after 2^31 - 1 connections is not modelled.
- `errno` values are fixed at their Linux numbers (module Errno).
- HttpServer, HttpResponse, the inspect directory and ProcessInspector are not part of this model. Neither are the tests and demo programs, which print and assert nothing.
- FixedBuffer's cookie, `bzero` and `debugString` are left out. They are diagnostics with no effect on the buffer's content.
- When `fwrite` fails, LogFile's `File::append` prints an `ferror` message to stderr. The model does not show that message. It does model the write loop stopping at a zero-length write.
- TimerQueues.TimerQueue.RunExpired: a callback is modelled only by the timer ids it cancels (the `cancels` parameter). A callback that adds a timer through runAt/runAfter, which reaches addTimerInLoop while the expired list is being run, is not modelled, so the contracts of RunExpired, RunAndReset and HandleRead do not cover timers added from inside a callback.
- HttpContexts.HttpContext.Request: the const and non-const `request()` overloads are one function, since they return the same object.
- The second HttpContext copy (HttpContextsBak) shares its parse-state machine (states, events, `Run`) with HttpContexts rather than declaring it twice. `HttpContextsBak.AgreesWithMain` ties the two classes together.
- SocketsOps.FromIpPort takes the IPv4 address as its four bytes. Parsing dotted-quad text with `inet_pton`, and `inet_ntop` in `toIpPort`, are not modelled.

## Findings

| source | as written | input that shows it | evidently intended | confidence | as-written member | corrected member |
|---|---|---|---|---|---|---|
| muduo/net_bak/poller_bak/PollPoller.cpp:88-99 | updating an existing channel writes `-fd-1` into its slot when it has no interest, but never writes `fd` back when interest returns, so poll keeps ignoring the descriptor | any descriptor fd disabled (slot fd -fd-1) and then enabled again, say 5 for reading: the slot still holds -6 | set the slot's fd to the channel's fd before the none-event test, so a re-enabled channel is polled again | not executed | PollPollers.StaleIgnoredSlot | PollPollers.Slot |
| muduo/net/TcpServer.cpp:78-81 | the ":hostport#id" suffix is formatted into `char buf[32]`, so snprintf cuts long suffixes and two connections can get the same name | a server on 255.255.255.255:65535: connection 100000000 gets the name of connection 10000000 | the whole suffix in the name, so distinct ids give distinct names | not executed | TcpServers.TruncatedNamesCollide | TcpServers.ConnNamesDistinct |
