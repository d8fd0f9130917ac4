# gen2oll launcher core, modelled in Dafny

The launcher finds EPICS camera IOC instances below a top directory, starts
each one as a child process connected by three pipes, sends it commands and
collects what it prints on stdout and stderr. This project models that
core:

- `cstring.dfy` (module `CString`): the C-string helpers the code relies
  on: `"%s"`/`strlen` stopping at the first NUL, `strncmp` on a prefix,
  `isalnum` in the C locale.
- `child_data.dfy` (module `ChildStream`): the per-stream accumulator
  `ChildData`. It is a class over a 4096-cell `array<char>` with `size`, a
  line counter and an append-only log. `ExtractLines` is the pointer loop of
  `extractLines` with the `memmove` of the residue. `RecvResponse` is one
  `poll`/`read` drain. The scan is specified by the function `Scan`, which
  follows the loop as written, and by the byte-preservation and line-shape
  lemmas proved about it.
- `config.dfy` (module `Config`): `parseInstanceLine` (three index loops,
  proved equal to the function `InstanceValue`), the `strncmp` key chain,
  the fold over the lines of `instance.cmd` (the last matching line wins),
  the descriptor handed to `new Ioc(...)`, and POSIX `dirname`/`basename`.
- `discovery.dfy` (module `Discovery`): `listDir` as recursion over a
  directory-tree datatype with the level rules. It is proved equal to an
  independent depth-by-depth search: stage, "ioc*" directory, instance
  directory, `instance.cmd*` file.
- `ioc.dfy` (module `Process`): the `Ioc` lifecycle (`start`, `stop`,
  `sendCommand`, `recvResponse`) as a class. Its invariant is the one the
  asserts in `start`/`stop` state: a stopped instance has pid 0 and every
  descriptor at -1. C's `int |` is modelled on 32-bit two's complement.
- `ioc_list.dfy` (module `Registry`): the `IocList` vector with `addIoc`,
  `count`, `ioc(n)`, `clear`, `parseInstanceFile`, `listDir` and
  `populate`. The methods are proved to add exactly the descriptors that
  `Config.Describe` and `Discovery.Discover` specify, in order.

Operating-system calls are inputs. `opendir`/`readdir` is an `Entry` tree,
`fopen`/`fgets` is a `FileText`, `poll`/`read` is a `PollEvent`,
`pipe`/`fork` are `PipeResult`s and a pid, `waitpid` is an integer result,
and `write` to the child's stdin is a ghost log.

## Model

| member | source | states |
|---|---|---|
| CString.CStr | launcher.h:50-53 | the text `"%s"` takes from a buffer is its longest NUL-free prefix, stopping just before the first NUL |
| CString.CStrOfNoNul | launcher.h:50-53 | a NUL-free text is taken whole |
| CString.PrefixMatches | launcher.cpp:168-174 | `strncmp(s, lit, n) == 0` on a NUL-free text: it has at least `n` characters and they agree with the literal's first `n`; the same test serves the "ioc" and "instance.cmd" name checks at launcher.cpp lines 61 and 84 |
| CString.IsAlnum | launcher.cpp:120-126 | `isalnum` in the "C" locale: a digit or an ASCII letter, as the third loop of `parseInstanceLine` tests it at line 122 |
| ChildStream.Scan | launcher.cpp:239-249 | the line start the scan leaves behind lies between the current start and the end of the data |
| ChildStream.Lines | launcher.cpp:234-249 | the lines `extractLines` logs for the buffer contents, each from the current line start through a newline, in order |
| ChildStream.Residue | launcher.cpp:250-264 | the bytes kept after `extractLines`, which are always a suffix of the old contents |
| ChildStream.LogText | launcher.h:50-53 | the text the log gains for a list of lines, each cut at its first NUL by `"%s"`; it never holds a NUL |
| ChildStream.ScanNoNewline | launcher.cpp:239-249 | with no newline in the data the scan logs nothing and keeps the line start |
| ChildStream.ScanBytes | launcher.cpp:239-249 | the lines the scan logs, concatenated, are exactly the bytes from the start up to where the residue begins |
| ChildStream.ScanNewline | launcher.cpp:240-246 | the same byte accounting holds when the cursor sits on a newline |
| ChildStream.ScanStep | launcher.cpp:240-248 | at a newline the scan logs bytes start..newline inclusive and resumes two bytes further; at any other byte it just advances |
| ChildStream.LineLogged | launcher.cpp:240-247 | logging one line keeps the loop's accounting: the lines logged so far plus those still to come are the whole scan, and the log grows by the line's C string |
| ChildStream.ByteSkipped | launcher.cpp:248 | stepping over a non-newline byte keeps the loop's accounting |
| ChildStream.ScanShape | launcher.cpp:239-249 | every logged line ends in a newline, and its only other possible newline is its first byte; no newline follows the residue start except at it |
| ChildStream.SplitPreservesBytes | launcher.cpp:234-264 | the logged lines followed by the residue are exactly the old buffer contents: no byte is lost or duplicated |
| ChildStream.SplitShape | launcher.cpp:239-264 | every logged line ends in '\n'; the residue holds no '\n' except possibly at index 0 |
| ChildStream.LogTextAppend | launcher.h:50-53 | logging one more line appends that line's C string to the log |
| ChildStream.LogTextOfNoNul | launcher.h:50-53 | on NUL-free data the log text is the plain concatenation of the lines |
| ChildStream.DrainKeepsStream | launcher.cpp:289-298 | after a read of NUL-free data, the log followed by the new buffer contents is the old log, old buffer and chunk, in that order |
| ChildStream.BlankLineJoinsNext | launcher.cpp:240-248 | on "a\n\nb\n" the scan logs "a\n" and "\nb\n": the byte after a newline is never tested |
| ChildStream.LinesDependOnChunking | launcher.cpp:239-249 | the same bytes split into two reads give different lines than one read |
| ChildStream.ReassemblePreservesBytes | launcher.cpp:267-298 | over any sequence of reads, the logged lines followed by the pending bytes are the pending bytes at the start followed by every chunk |
| ChildStream.ReassembledLinesEndInNewline | launcher.cpp:239-249 | every line logged over a sequence of reads ends in a newline |
| ChildStream.Reassemble | launcher.cpp:267-298 | the lines logged and the bytes left pending after a sequence of reads, each read followed by `extractLines` on the pending bytes plus the chunk |
| ChildStream.ResponseCodeRange | launcher.cpp:277-306 | the value returned is -1 exactly after a poll failure or a hang-up, and never exceeds 4095 |
| ChildStream.ResponseCode | launcher.cpp:277-306 | the value `recvResponse` returns: -1 on poll failure or hang-up, 0 on timeout, 1 on an unhandled event, the pending size after a read |
| ChildStream.Seen | launcher.cpp:273-277 | `poll` on a negative descriptor reports nothing, as a timeout, unless `poll` itself fails |
| ChildStream.Drain | launcher.cpp:277-306 | the log, line counter and pending bytes after one drain: a hang-up logs the sentinel line, a read logs the completed lines and keeps the residue, any other event changes nothing |
| ChildStream.FullBufferStalls | launcher.cpp:289-298 | with 4095 pending bytes and no newline the only read that fits is empty; it changes nothing and returns 4095, so the stream stalls |
| ChildStream.DrainAppendsOnly | launcher.cpp:277-306 | a drain only appends to the log; a read of NUL-free data keeps log plus pending bytes equal to what was there plus the chunk; a read returns the number of bytes left pending; any other event leaves the pending bytes alone |
| ChildStream.ChildData.constructor | launcher.h:31-37 | a new stream has no name, fd -1, an empty terminated buffer, 0 lines and an empty log |
| ChildStream.ChildData.SetName | launcher.h:39-41 | the name becomes the first 15 characters of the argument; nothing else changes |
| ChildStream.ChildData.Clear | launcher.h:43-48 | size and line count become 0, the log empties and buffer[0] is NUL; name, fd and the other buffer cells are unchanged |
| ChildStream.ChildData.AddLine | launcher.h:50-53 | the log gains exactly the given text, with no newline added, and the line count grows by one; the pending data are unchanged |
| ChildStream.ChildData.ExtractLines | launcher.cpp:234-265 | the log gains the C strings of the completed lines, the counter grows by their number, and the buffer keeps exactly the residue, terminated |
| ChildStream.ChildData.LogCompletedLines | launcher.cpp:239-249 | the scanning loop logs every completed line in order and returns where the residue begins |
| ChildStream.ChildData.ScanOne | launcher.cpp:240-248 | one pass of the loop body keeps the loop's accounting invariant and advances the cursor |
| ChildStream.ChildData.Compact | launcher.cpp:251-264 | the residue is moved to the front of the buffer and terminated; log and counter are untouched |
| ChildStream.ChildData.Append | launcher.cpp:291-293 | the bytes read are placed after the pending ones and the buffer stays terminated |
| ChildStream.ChildData.Receive | launcher.cpp:289-298 | a read followed by extractLines returns the residue size and leaves exactly the residue pending |
| ChildStream.ChildData.RecvResponse | launcher.cpp:267-307 | returns -1 on poll failure or hang-up, 0 on timeout, 1 on unhandled events and the pending size after a read; the new state is `Drain` of the old one; a hang-up logs the sentinel line once; buffer and size are unchanged unless bytes were read |
| Config.FirstFrom | launcher.cpp:105-119 | the result is the first position of the character in the range, or the range end when it does not occur |
| Config.LastAlnumAbove | launcher.cpp:120-126 | the result is the last alphanumeric position above the start, or the start itself when there is none |
| Config.ValueStart | launcher.cpp:102-119 | the value starts no later than the last character |
| Config.InstanceValue | launcher.cpp:101-129 | the extracted value is never empty and, when longer than one character, ends in an alphanumeric character |
| Config.ParseInstanceLine | launcher.cpp:101-129 | the three loops return exactly `InstanceValue` of the line |
| Config.SkipToComma | launcher.cpp:105-111 | the first loop stops at the first comma before the last character, or at the last character |
| Config.SkipPastQuote | launcher.cpp:112-119 | the second loop stops just past the first quote after the comma, or at the last character |
| Config.TrimToAlnum | launcher.cpp:120-126 | the third loop stops at the last alphanumeric character above the value start |
| Config.WellFormedValue | launcher.cpp:98-129 | a line `<key>,<blanks>"<value><closing>` whose value ends alphanumeric yields exactly that value |
| Config.HeadShape | launcher.cpp:105-119 | in `<key>,<blanks>"` the comma and the quote the loops find are the separator and the opening quote |
| Config.FirstFromIs | launcher.cpp:106-119 | a position holding the character with none before it is the one found |
| Config.LastAlnumIs | launcher.cpp:121-126 | an alphanumeric position with none after it is the one found |
| Config.LocationExample | launcher.cpp:98-99 | the documented line `epicsEnvSet("LOCATION", "LAB")` yields "LAB" |
| Config.Classify | launcher.cpp:168-177 | a line classified under a key is at least 22 characters long |
| Config.ClassifyKeyLines | launcher.cpp:168-177 | a line that starts with one of the three full keys is classified under that key |
| Config.DeviceKeyIgnoresClosingQuote | launcher.cpp:171-176 | a DEVICE_NAMES line is taken for DEVICE_NAME, because only 24 of the key's 25 characters are compared |
| Config.Absorb | launcher.cpp:161-177 | one fgets line, cut at its first NUL, replaces the setting its key names with the extracted value; other lines change nothing |
| Config.Collect | launcher.cpp:157-178 | the three settings after all lines of the file, absorbed in order |
| Config.AbsorbSlot | launcher.cpp:161-177 | one line changes the setting its key names, and no other |
| Config.CollectSnoc | launcher.cpp:161-178 | the settings after one more line are the old settings absorbing it |
| Config.MissingIffNoMatch | launcher.cpp:158-182 | a setting stays NULL exactly when no line carries its key |
| Config.LastMatchWins | launcher.cpp:161-177 | otherwise its value is that of the last line carrying the key |
| Config.LaterLineOverrides | launcher.cpp:168-177 | a later matching line overrides an earlier one |
| Config.ValueEnd | launcher.cpp:120-127 | where `e` stops: at or past the value start and inside the line, on an alphanumeric character unless it is the start itself, with no alphanumeric character after it |
| Config.Truncated | launcher.cpp:127-128 | the line buffer after one loop pass: a line with no key is left as it was; on a key line `parseInstanceLine` has cut the C string just after the value with a NUL, so the buffer ends in that NUL, what precedes it is a prefix of the line, and the text from the value start up to it is exactly the extracted value |
| Config.CStrCut | launcher.cpp:127 | the NUL written just after a NUL-free text ends the C string there |
| Config.KeysHaveNoComma | launcher.cpp:168-173 | none of the compared key characters is a comma |
| Config.CommaPastKey | launcher.cpp:105-111 | on a line that starts with comma-free compared characters, the first comma the first loop finds lies past them or is missing |
| Config.KeyHasNoComma | launcher.cpp:105-111 | on a key line the first comma lies past the 22 or 24 compared characters, or is missing |
| Config.PrefixMatchesCut | launcher.cpp:168-173 | a line cut no shorter than the compared length matches a key exactly when the whole line does |
| Config.CutKeepsKey | launcher.cpp:168-173 | a key line cut no shorter than its compared key keeps its key |
| Config.CutKeepsStart | launcher.cpp:105-119 | cutting a line after its opening quote keeps where the value starts |
| Config.CutKeepsEnd | launcher.cpp:120-126 | cutting a line just after an alphanumeric character keeps the value end there |
| Config.CutKeepsValue | launcher.cpp:101-129 | the line `parseInstanceLine` leaves behind, cut after the value, yields the same value again |
| Config.CutKeepsClass | launcher.cpp:127-173 | a key line cut after its value is still classified under the same key |
| Config.NoNulPrefix | launcher.cpp:127 | a prefix of a NUL-free text is NUL-free, so cutting a line leaves a proper C string |
| Config.CStrOfTruncated | launcher.cpp:127-128 | the C string the truncated buffer holds is the line cut just after its value |
| Config.AbsorbSame | launcher.cpp:161-177 | a line with the same key and value as the one just absorbed changes nothing |
| Config.AbsorbTruncated | launcher.cpp:127-177 | absorbing the buffer `parseInstanceLine` truncated, right after the line itself, changes nothing |
| Config.RepeatedLastLineHarmless | launcher.cpp:127-178 | for any lines and any last text, absorbing the last text and then the buffer `parseInstanceLine` left of it (`Truncated`) gives the same settings as absorbing the last text once; this covers the extra pass of the `feof` loop |
| Config.DescribeSpec | launcher.cpp:131-209 | a descriptor is made exactly when the file reads cleanly and all three keys occur; its prefix is location ":" device ":" and its device name the camera name, each from the last line carrying it |
| Config.Assemble | launcher.cpp:182-197 | no descriptor unless all three settings were found; otherwise the prefix is location ":" device ":" and the device name the camera name |
| Config.Describe | launcher.cpp:131-209 | the descriptor `parseInstanceFile` adds for a directory and what reading its file gives: none when the file cannot be opened or a read fails |
| Config.Join | launcher.cpp:48-49 | the "%s/%s" join of a directory path and an entry name |
| Config.Dirname | launcher.cpp:136-137 | POSIX `dirname`: the path without its last component; never empty |
| Config.Basename | launcher.cpp:135 | POSIX `basename`: the last component; never empty, and without a slash unless it is "/" |
| Config.StagePath | launcher.cpp:136-137 | `dirname` applied twice to the instance directory's path |
| Config.TrimSlashes | launcher.cpp:135-137 | the result is a prefix of the path without a trailing slash; only slashes were dropped |
| Config.LastSlash | launcher.cpp:135-137 | the result is the position of the last slash, or -1 when there is none |
| Config.JoinSplits | launcher.cpp:133-137 | `dirname` and `basename` undo the "%s/%s" join of a directory and an entry name |
| Config.InstancePathNames | launcher.cpp:133-137 | for `<stage>/<ioc>/<instance>`, dirname twice gives the stage path and basename the instance directory's name |
| Discovery.InstanceLevel | launcher.cpp:66-90 | at level 3 the walk only parses `instance.cmd*` files, naming each descriptor after the directory path |
| Discovery.InstanceItem | launcher.cpp:66-90 | one entry at level 3: a readable `instance.cmd*` file gives its descriptor, anything else nothing |
| Discovery.IocDirItem | launcher.cpp:64-77 | one entry at level 2: a sub-directory is searched as an instance directory |
| Discovery.IocDirLevel | launcher.cpp:64-77 | at level 2 every sub-directory is an instance directory |
| Discovery.StageItem | launcher.cpp:56-63 | one entry at level 1: only a directory whose name starts with "ioc" is entered |
| Discovery.StageLevel | launcher.cpp:56-63 | at level 1 only "ioc*" directories are entered |
| Discovery.RootItem | launcher.cpp:43-55 | one entry at level 0: every directory but "." and ".." is a stage |
| Discovery.RootLevel | launcher.cpp:43-55 | at level 0 every sub-directory is a stage |
| Discovery.WalkMatchesLayout | launcher.cpp:20-96 | the walk from the top path finds exactly the instances of the stage/ioc*/instance/instance.cmd* layout, in directory order |
| Discovery.Recurses | launcher.cpp:52-72 | whether a sub-directory is entered: always at levels 0 and 2, at level 1 only when its name starts with "ioc", never at level 3 |
| Discovery.Discover | launcher.cpp:28-96 | the descriptors `listDir` adds for what `opendir` finds: nothing for an entry it cannot open, otherwise those of its readdir loop |
| Discovery.DiscoverIn | launcher.cpp:38-92 | the readdir loop: the results of the entries in directory order |
| Discovery.Visit | launcher.cpp:39-91 | one entry: a level-3 `instance.cmd*` file gives its descriptor, a directory other than "." and ".." that is entered gives the results one level down, anything else nothing |
| Process.Or | launcher.cpp:447-448 | the OR of two ints is an int |
| Process.OrZeroLeft | launcher.cpp:445-447 | OR into 0 gives the operand |
| Process.OrAllOnes | launcher.cpp:447-448 | OR with -1 gives -1 |
| Process.OrSmall | launcher.cpp:447-448 | OR of two buffer sizes is non-negative, and 0 exactly when both are |
| Process.OrOfResults | launcher.cpp:443-454 | the combined result is negative exactly when either stream reported -1, and it is then -1; it is 0 exactly when both returned 0 |
| Process.Ioc.constructor | launcher.h:74-90 | a new instance is stopped and dormant (pid 0, every fd -1), with streams named "stdout" and "stderr", empty and at 0 lines |
| Process.Ioc.Dormant | launcher.cpp:323-326 | the state the asserts in `start` require of a stopped instance: pid 0 and stdin, stdout and stderr descriptors -1 |
| Process.Ioc.IsStarted | launcher.h:97-99 | reports whether the instance is started |
| Process.Ioc.Start | launcher.cpp:313-384 | on a started instance returns 0 and changes nothing, buffers included; on a pipe failure returns -1 and changes nothing, buffers included; otherwise stores the pid and the pipe ends, clears both streams and marks the instance started |
| Process.Ioc.Stop | launcher.cpp:386-431 | on a stopped instance returns 0 and changes nothing; a waitpid result of 0 or less returns -1 and changes nothing; otherwise the instance is stopped with pid 0 and every fd -1, its stream logs kept |
| Process.Ioc.SendCommand | launcher.cpp:433-441 | always returns 0; the child's stdin receives the command's C string and a newline when the pipe is open |
| Process.Ioc.RecvResponse | launcher.cpp:443-454 | drains stderr then stdout and returns 0 OR the stderr result OR the stdout result, each stream ending in its `Drain` state for the event its descriptor reports; descriptors and names are unchanged |
| Process.StartThenStop | launcher.cpp:313-431 | a successful start followed by a successful stop leaves the instance stopped and dormant with both streams empty |
| Registry.DescriptorsSnoc | launcher.h:125-127 | appending an instance appends its descriptor |
| Registry.WalkStep | launcher.cpp:38-92 | the readdir loop's results grow by the results of the next entry |
| Registry.ReadSettings | launcher.cpp:157-178 | the fgets loop yields exactly the settings `Collect` specifies for the file's lines |
| Registry.IocList.constructor | launcher.h:112-115 | a new registry is empty, with an empty top path |
| Registry.IocList.AddIoc | launcher.h:125-127 | the instance is appended at the end; earlier indices keep their elements |
| Registry.IocList.Count | launcher.h:128-130 | returns the number of instances |
| Registry.IocList.IocAt | launcher.h:131-136 | returns the n-th instance when n is below the count, and NULL otherwise |
| Registry.IocList.Clear | launcher.cpp:224-230 | the list becomes empty; the forgotten instances are not stopped |
| Registry.IocList.ParseInstanceFile | launcher.cpp:131-209 | returns true exactly when `Describe` yields a descriptor, and then appends one new, valid, stopped instance carrying it; otherwise the list is unchanged |
| Registry.IocList.ListDir | launcher.cpp:28-96 | appends exactly the descriptors `Discover` specifies, in order, as new valid stopped instances, keeping the earlier ones |
| Registry.IocList.VisitEntry | launcher.cpp:39-91 | one readdir entry appends exactly the descriptors `Visit` specifies |
| Registry.IocList.Populate | launcher.cpp:211-222 | with an empty top path returns 0 and changes nothing; otherwise appends the instances `Discover` finds from the top path and returns the new count |

## Left out

- The ImGui front end (`Ioc::draw`, `Ioc::show`, `launcherInitialize`, `launcherDraw`, `launcherDestroy`) and the fields only it uses (`stdinBuffer`, `autoScroll`, `scrollToBottom`, `open`, `wantStart`, `wantStop`): presentation, no launcher logic.
- The system calls themselves (`opendir`/`readdir`/`closedir`, `fopen`/`fgets`/`feof`/`ferror`, `pipe`/`fork`/`dup2`/`prctl`/`execl`, `kill`/`waitpid`, `poll`/`read`/`write`/`close`): replaced by their outcomes as inputs, as listed above. The child's side of `fork` and the `start_ioc.sh` command line are not modelled.
- The logging macros `D`, `D0` and `E`: output to stderr only.
- `strdup`/`free`/`calloc` bookkeeping, the memory leaked on the `ferror` path and on overwritten keys, and the pipe descriptors leaked on a partial `pipe` failure: memory and descriptor accounting are not modelled.
- Registry.IocList.Clear: `clear()` deletes each `Ioc`, whose destructor frees its four strings but neither stops a started child nor closes its pipe descriptors; the model drops the instances from the list and states that their `started` and `pid` are untouched, but does not model deallocation or the descriptors left open.
- Process.Ioc.Start: requires a positive `fork` result; the unchecked `fork() == -1` case, which the code would record as a started instance with pid -1, is not modelled.
- `fgets` into the uninitialised `line` of an empty file: undefined behaviour; an empty file is modelled as no lines.
- ChildStream.ChildData.RecvResponse: a `read` returning -1 would wrap the unsigned `size`; the model takes a successful read (possibly empty).
- `snprintf` truncation of paths longer than 1023 characters in `listDir`, and the 511-character limit of `topPath`: paths are unbounded sequences.
- ChildStream.ChildData.SetName: `strncpy` leaves a 15-character or longer name unterminated; the model keeps the first 15 characters as the name.
- `assert(1 == 0)` for levels above 3: unreachable, levels are 0 to 3.
- The signal `stop()` sends (SIGKILL) and the exit status `waitpid` reports, which only feed log messages.
- Partial or failed `write`s in `sendCommand`: the code ignores them; the ghost stdin log records the full command.
- glibc `dirname("//")` returning "//": the model follows POSIX and returns "/"; discovery never builds such a path.
- The extra pass of the `while (!feof(fp))` loop: when the last `fgets` that stores text does not reach end of file (the file ends in a newline, or its last line fills the 254-character limit exactly), the next `fgets` reads nothing and the loop handles the line buffer once more, as `parseInstanceLine` left it with a NUL written just after the value (`Config.Truncated`). `Config.Collect` takes each line once; `Config.RepeatedLastLineHarmless` proves the reuse gives the same settings.
- Directory entries whose type is not DT_DIR (symbolic links included) are treated as files, as the code does; `d_type == DT_UNKNOWN` file systems are not distinguished.

## Where the code differs from what one might expect

The model follows the code in each of these cases.

- `stop()` does not clear the streams' logs; they stay visible until the next `start()` clears them.
- A failed `waitpid` in `stop()` returns -1 and keeps the instance marked started, with its pid and descriptors.
- The walk enters stage directories at level 1, "ioc*" directories at level 2 and instance directories at level 3, and reads `instance.cmd*` files there. `ioc` and `instance.cmd` are prefix matches.
- The DEVICE_NAME and CAMERA_NAME keys are compared on 24 characters, one short of the closing quote.
- How a stream is split into lines depends on how it arrives in reads, because the byte after each newline is not tested. Only the byte stream itself is independent of the chunking.
- `poll()` on a stream whose descriptor is -1 (an instance never started) times out, so `recvResponse` returns 0 and changes nothing; only a failing `poll()` (interrupted by a signal, say) still returns -1.
- A buffer holding 4095 bytes and no newline stalls: `read` is asked for 0 bytes, nothing is logged and `recvResponse` keeps returning 4095 (`ChildStream.FullBufferStalls`).
