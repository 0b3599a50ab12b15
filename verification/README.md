# hostctl: a verified model

This project models the parts of hostctl on which its promise rests: that a command runs, or a file changes, exactly once
on a target reached through layers that fail, split, echo or parse again what is sent. Each file is one module.

| file | models |
|---|---|
| `Search.dfy`, `Frame.dfy` | the incremental parser that recovers stdout, stderr and status from one echoing console stream |
| `Base64.dfy`, `TypedLines.dfy` | the compiler from a command and its input to acknowledged batches of typed lines |
| `Printers.dfy` | what sh and its `printf` make of the typed printers: the markers |
| `TypedShell.dfy`, `TypedRun.dfy` | the target's shell, which reads the typed lines and runs them over its files, and what it then prints |
| `Terminal.dfy` | who holds a console's terminal, for one command and for any interleaving of commands |
| `Deploy.dfy` | the tree deploy by two renames, interrupted anywhere |
| `Closure.dfy` | the dependency closure of a bundle |
| `Selector.dfy`, `HostRun.dfy`, `PathRouting.dfy` | ordered failover: selecting a provider, running a command, routing a path |
| `Lifecycle.dfy` | which transports a host has open |
| `Chars.dfy`, `Crt.dfy`, `Cmd.dfy`, `Batch.dfy`, `PowerShell.dfy` | quoting for Windows, with the parsers that read it |
| `LoginShell.dfy` | quoting for POSIX shells and fish, with the lexers that read it |
| `Script.dfy`, `SourceText.dfy` | the join and script assembly, with a reader, a parser and a semantics for what they write |
| `Demux.dfy` | the Docker stream demultiplexer |
| `Lease.dfy` | the exclusive stream lease and its process, with every interleaving of their steps |

Code that changes state is a class or a method, proved against a function of its inputs or of the old state; the
theorems are about those functions. What is outside the program is adversarial: how a stream is cut, which step of a
deploy stops half way, what providers, sinks, hooks and sockets answer, and in which order threads run.

Seven promises hold only under a condition, which is proved exact, with a concrete run for the other side.
`Demux.Call`, `Demux.FirstReadLoses`: a read to the end, on a wire that will end inside a frame, loses what its stream
still had. `Terminal.ConsoleExecutor.DispatchRequest`: a stream whose own write refuses the command line as never
started leaves the terminal held. `Lifecycle.SystemHost.Connect`, `Lifecycle.LateConnectLeaks`: a provider that was
selected before a replacement and connected after it is forgotten by the next connect; `Lifecycle.FinalClose` says over
whole runs when that leaves a transport open. `Lifecycle.TwiceWhenShared`, `Lifecycle.SharedIsListedTwice`: a connect can
list a provider twice if the two sets share one. `SourceText.JoinMeans`, `SourceText.ScriptRuns`,
`Script.CommentSwallows`: raw source that ends in a comment takes in what is written behind it on its line, and neither
the POSIX nor the fish flavour guards against that, as the PowerShell flavour does for its own ending
(`src/hostctl/shell/_powershell.py:136-138`). `TypedRun.StdoutIsOwn`, `TypedRun.EmptyComplains`: of an empty command
nothing is typed, and the target's shell complains of the missing file into its stdout. `Selection.FailsWithCapability`,
`Selection.WildcardStaysRefused`: with a capability, a refused provider that offers it only through the `path` wildcard
is not admitted again.

One refusal is wider than needed, which is proved as well. `PowerShell.RefusalProtects`: some arguments refused as
splitting would arrive.

Where the code and its documentation differ, the model follows the code: `select` is documented to re-admit every
earlier refusal before it fails, which is so without a capability only.

## Model

| member | source | states |
|---|---|---|
| `Search.FindExtend` | src/hostctl/console/_posix.py:164-209 | A first occurrence of a marker is not moved by bytes that arrive later, for every stream, pattern and start |
| `Framing.Partial` | src/hostctl/console/_posix.py:135-140 | The number held back is the length of the longest proper beginning of the marker that ends the data behind the start position |
| `Framing.HeldIsFirstLive` | src/hostctl/console/_posix.py:135-140 | Holding back that many bytes holds back from the first place where the marker may still begin, so nothing is held back too little or too much |
| `Framing.InnerUnderscores` | src/hostctl/console/_posix.py:151-155 | Inside a match of the end expression two underscores in a row stand only at its beginning and at its end: the border fact that the hexadecimal token gives |
| `Framing.LaterPrefixKills` | src/hostctl/console/_posix.py:193-204 | A complete end prefix at a later place rules out every earlier match, however the stream goes on: what makes the search from the right sound |
| `Framing.BeforeSafeIsDead` | src/hostctl/console/_posix.py:195-203 | Everything before the safe point of the stderr state is dead for every continuation of the stream |
| `Framing.Frame.AwaitStart` | src/hostctl/console/_posix.py:170-181 | Waiting finds the start marker or keeps fewer bytes than it has, and the parser stays in agreement with the one-shot split of all bytes fed |
| `Framing.Frame.ReadOut` | src/hostctl/console/_posix.py:182-191 | Emits exactly the stdout bytes between the old and the new settled position, up to the mid marker or to where it may still begin |
| `Framing.Frame.ReadErr` | src/hostctl/console/_posix.py:192-208 | Emits exactly the stderr bytes up to the end match, or up to the safe point, and takes the status of that match |
| `Framing.Frame.Compact` | src/hostctl/console/_posix.py:211-214 | Dropping the settled part of a long buffer changes neither what was fed nor what is known about it |
| `Framing.Frame.Feed` | src/hostctl/console/_posix.py:164-217 | Every call adds its bytes to the stream; what it emits is what the recovered answer grows by |
| `Framing.FeedAll` | src/hostctl/console/_posix.py:143-217 | For every stream and every way of cutting it, the concatenated emits, the final state and the status equal the one-shot split |
| `Framing.EmitsArePrefixes` | src/hostctl/console/_posix.py:164-217 | What was recovered from a stream is a prefix of what any longer stream gives |
| `Framing.DoneIsFinal` | src/hostctl/console/_posix.py:205-210 | After the end match later bytes change nothing |
| `Framing.FramingRoundTrip` | src/hostctl/console/_posix.py:143-217 | Noise without an earlier start marker and the three frames in order, the status as the shell prints it in decimal, parse to exactly the outputs and that number, provided the outputs hold no earlier match |
| `Framing.FinishedIsFramed` | src/hostctl/console/_posix.py:143-217 | Conversely every finished stream is noise, the frames around exactly the recovered bytes, and a rest, and none of noise, stdout and stderr holds an earlier match |
| `Framing.NumeralsDenote` | src/hostctl/console/_posix.py:206-206 | The ten numerals denote zero to nine, and `10` denotes ten |
| `Framing.ValueJoin` | src/hostctl/console/_posix.py:206-206 | In the status's digits every numeral counts by its position, to the base ten |
| `Framing.DecimalDenotes` | src/hostctl/console/_posix.py:206-206 | What is printed for a number denotes that number, in digits without a zero in front |
| `Framing.MarkersBordered` | src/hostctl/console/_posix.py:151-155 | The markers of every hexadecimal token have the border property that the parser needs |
| `Base64.RoundTrip` | src/hostctl/console/_posix.py:59-60 | Decoding gives back every byte string (section 4 of RFC 4648) |
| `Base64.Shape` | src/hostctl/console/_posix.py:59-60 | Only the alphabet and the padding are written, four characters for every three bytes begun |
| `Base64.EncodesDigits` | src/hostctl/console/_posix.py:59-60 | Every three bytes are written as the four digits to the base sixty-four of one number, in the alphabet of RFC 4648, and the end is padded |
| `TypedLines.Batch` | src/hostctl/console/_posix.py:119-129 | The batches hold all lines in order, the command line last, and each but the last leaves room for its acknowledgement |
| `TypedLines.Acknowledge` | src/hostctl/console/_posix.py:130-131 | Every batch but the last, and no other, gets its own numbered acknowledgement on its last line |
| `TypedLines.TypedBatches` | src/hostctl/console/_posix.py:68-132 | Without their acknowledgements the batches are the setup lines and the command line in order; every batch of a bound of at least 1024 types at most that many bytes with newlines, for batch numbers up to 22 digits |
| `TypedLines.AckFits` | src/hostctl/console/_posix.py:38-44 | The room kept for an acknowledgement is enough for every number of up to 22 digits |
| `TypedLines.TypedBytesAre` | src/hostctl/console/_posix.py:117-129 | What is counted for a batch is the length of what is sent for it, line ends included |
| `TypedLines.MainLineLength` | src/hostctl/console/_posix.py:101-115 | The command line is short enough for one batch and for a line editor that drops 1024 bytes, for every token, input and merge flag |
| `TypedLines.TypedLinesAreSafe` | src/hostctl/console/_posix.py:68-132 | Every typed line is under 1024 bytes (batch numbers up to 22 digits) and holds no complete start, mid, end or acknowledgement marker of any command, nor the beginning of one at its end |
| `TypedLines.BytesArrive` | src/hostctl/console/_posix.py:85-98 | The pieces typed for a file concatenate to its base64, which decodes to the file |
| `TypedLines.MarkersAreStemmed` | src/hostctl/console/_posix.py:151-155 | All four kinds of marker have the one shape that the typed lines are free of |
| `TypedLines.ConsoleRoundTrip` | src/hostctl/console/_posix.py:68-217 | A terminal that shows anything without a start marker or the beginning of one, and then the frames, cut in any way, gives exactly stdout, stderr and status |
| `TypedLines.TypedRunParses` | src/hostctl/console/_posix.py:68-217 | The same when the terminal shows the lines that the compiler really types for a command and its input, whole or their ends, in any order, with prompts and line ends before, between and behind them |
| `TypedLines.AwaitAcknowledgement` | src/hostctl/console/_posix.py:522-546 | Whatever the pieces, the wait ends at the first piece that completes the marker's first occurrence and returns exactly what follows it |
| `TypedLines.AwaitTyped` | src/hostctl/console/_posix.py:456-460 | When the typed lines are shown among such noise and then acknowledged, cut in any way, the wait ends with the read that completes that acknowledgement and returns exactly what had come behind it |
| `TypedLines.RunTyped` | src/hostctl/console/_posix.py:366-546 | The whole command on one stream: every batch is typed in order; each but the last waits for its own acknowledgement, whatever reads are dropped while it is typed; what the last wait had left over is fed first; and however the reads cut the screens, acknowledgements and frames, exactly the stdout, stderr and status in the frames come back |
| `TypedLines.AnswersInTurn` | src/hostctl/console/_posix.py:470-546 | What `RunTyped` asks of the reads is met by every console that answers each batch in one read, whatever it shows and prints |
| `Printers.HalvesRead` | src/hostctl/console/_posix.py:63-65 | sh reads a typed printer as `printf`, its format and its parts, for all parts that are plain inside double quotes |
| `Printers.HalvesPrint` | src/hostctl/console/_posix.py:63-65 | A typed printer prints its parts joined |
| `Printers.FramesPrint` | src/hostctl/console/_posix.py:101-115 | The first two printers of the command line print exactly the start and the mid marker that the parser looks for |
| `Printers.EndPrints` | src/hostctl/console/_posix.py:101-115 | With the command's status in its variable, the third prints exactly the end marker of that status |
| `Printers.AckPrints` | src/hostctl/console/_posix.py:130-131 | What is appended to a batch's last line prints exactly the acknowledgement that is waited for |
| `Printers.PiecePrints` | src/hostctl/console/_posix.py:85-90 | A line that appends a piece of a file appends exactly that piece of its base64 |
| `TypedRun.DoesEval` | src/hostctl/console/_posix.py:99-107 | Read character by character and run, the evaluating command gets the fetched text and the input, or none, as its stdin; its stdout goes to the terminal, and its stderr there as well or into the run's file, as asked |
| `TypedRun.SetupStep` | src/hostctl/console/_posix.py:82-98 | Each setup line is read as one command that adds its piece to its file, or decodes the input, and prints nothing |
| `TypedRun.MainEffect` | src/hostctl/console/_posix.py:101-115 | The main line prints exactly the frames around what the command wrote, with the status taken directly behind it, and puts back the terminal, the files and the variables |
| `TypedRun.MainAnswers` | src/hostctl/console/_posix.py:68-132 | Behind the setup lines the frames hold the answer to the caller's command and input themselves, stderr apart or merged as asked |
| `TypedRun.BatchesAnswer` | src/hostctl/console/_posix.py:68-132 | Run by the target's shell, each batch but the last prints its acknowledgement and nothing else, and the last exactly the frames; and the shell is left as it was |
| `TypedRun.RunOnTarget` | src/hostctl/console/_posix.py:366-546 | The whole command on a target: the batches are typed, the target's shell runs them, and however the reads cut what the console shows and the shell prints, exactly the command's own stdout, stderr and status come back |
| `TypedRun.CommandArrives` | src/hostctl/console/_posix.py:105-105 | A command without NUL is evaluated exactly as given, if and only if it does not end in a line end |
| `TypedRun.StdoutIsOwn` | src/hostctl/console/_posix.py:82-91 | What comes back as stdout is the command's own, if and only if the command is not empty or the shell does not complain of its missing file |
| `TypedRun.EmptyComplains` | src/hostctl/console/_posix.py:82-91 | A concrete shell: an empty command writes nothing, and its complaint comes back as stdout |
| `Deploy.MarkerReadsBack` | src/hostctl/deploy/_install.py:55-67 | The marker a deploy writes is read back as its digest |
| `Deploy.Machine.CurrentDigest` | src/hostctl/deploy/_install.py:55-67 | A missing, empty or unreadable marker is no digest; otherwise the stripped text is |
| `Deploy.Machine.Restore` | src/hostctl/deploy/_install.py:135-137 | A missing target with a marked `.old` is put back before anything else; every interruption leaves the tree in one of the two places |
| `Deploy.Machine.Prepare` | src/hostctl/deploy/_install.py:144-150 | Uploading, unpacking and marking touch neither the target nor `.old`, wherever they stop |
| `Deploy.Machine.Swap` | src/hostctl/deploy/_install.py:151-154 | At every interruption the tree in service is the old one or the new one, complete |
| `Deploy.Machine.Write` | src/hostctl/deploy/_install.py:144-155 | Wherever it stops, the target is as before, or at `.old`, or the new tree |
| `Deploy.Machine.InstallTree` | src/hostctl/deploy/_install.py:121-156 | False means current, with nothing changed but a tree put back; success means the target is the new payload with `.old` and staging gone; a foreign target is never changed; an interruption keeps a complete tree in service and markers truthful |
| `Deploy.InstalledIsGood` | src/hostctl/deploy/_install.py:149-150 | The tree that a deploy prepares is a complete one whose marker tells the truth |
| `Deploy.Deploys` | src/hostctl/deploy/_install.py:121-156 | Over any sequence of runs, each interrupted anywhere: markers stay truthful, and once one run succeeded a complete marked tree is in service for ever |
| `Selection.ChooseIsFirst` | src/hostctl/provider/_selector.py:237-296 | The choice is the first candidate in order, and there is none exactly when nothing is a candidate |
| `Selection.NeverBricks` | src/hostctl/provider/_selector.py:297-303 | Without a capability, selection fails exactly when no provider outside the excluded ones is usable by its probe |
| `Selection.WhatSelectMeans` | src/hostctl/provider/_selector.py:220-324 | A selection gives a usable provider outside the excluded ones, before which every usable one was refused or excluded |
| `Selection.EffectiveIs` | src/hostctl/provider/_selector.py:210-218 | A provider can do exactly what it both declares and states, with the `path` wildcard declaring everything; without a statement, exactly what it names |
| `Selection.SelectedOffers` | src/hostctl/provider/_selector.py:220-324 | A provider selected for a capability is usable, not excluded, declares the capability, and states it if its probe states anything |
| `Selection.FirstPassTells` | src/hostctl/provider/_selector.py:237-296 | The trace of an operation's first pass tells of each provider up to the one chosen what its probe answers or that it was refused, and marks the chosen one alone |
| `Selection.FailsWithCapability` | src/hostctl/provider/_selector.py:326-350 | With a capability, it fails exactly when every provider outside the excluded ones that could serve was refused earlier and does not declare the capability itself |
| `Selection.WildcardStaysRefused` | src/hostctl/provider/_selector.py:335-341 | That case is real: a concrete provider that is usable for the capability and stays refused |
| `Selection.SelectedOnce` | src/hostctl/provider/_selector.py:297-303 | After one re-admission there is nothing left to re-admit: the recursion ends |
| `Selection.RecordInOrder` | src/hostctl/provider/_selector.py:352-358 | A later step for a provider takes the place of the earlier one, so the trace keeps the providers' order, each once |
| `Selection.Selector.ProbeOf` | src/hostctl/provider/_selector.py:168-198 | A refused provider answers unavailable and nothing is cached; otherwise the answer of this generation, which the cache then holds |
| `Selection.Selector.ReadmitEarlierDeclines` | src/hostctl/provider/_selector.py:326-350 | Exactly the refusals that the running operation did not make, of providers that declare the capability, are forgotten |
| `Selection.Selector.Scan` | src/hostctl/provider/_selector.py:237-296 | One pass gives the specified choice and records, in order, what it found of every provider it considered |
| `Selection.Selector.Select` | src/hostctl/provider/_selector.py:220-324 | Gives the specified provider, leaves exactly the specified refusals, and ends with the trace in order |
| `Selection.Selector.Decline` | src/hostctl/provider/_selector.py:99-122 | Records one refusal and changes nothing else |
| `Selection.Selector.Invalidate` | src/hostctl/provider/_selector.py:385-393 | A new generation with no probe, no refusal and no trace |
| `HostRun.DispatchRequest` | src/hostctl/executor.py:949-1024 | A refusal counts as a decline exactly while nothing was sent, and after sending it is an error; it returns a status exactly if the first receive that is an error or carries a status carries that one, and ends in each other way exactly in its own cases; the output is the join of the pieces up to there, apart or merged |
| `HostRun.EndingIs` | src/hostctl/executor.py:975-1024 | Each way an exchange can end, and when exactly: by the first receive that decides, or by the send |
| `HostRun.OutputsAre` | src/hostctl/executor.py:981-987 | Apart, each stream is the join of its pieces; merged, stdout is the join of both and stderr is empty |
| `HostRun.RunWithProvider` | src/hostctl/system/_host.py:736-754 | How one provider's connect, rendering, send and receives end for the caller, status by status and error by error: exactly a refusal before the send point is a decline |
| `HostRun.RefusedReachNothing` | src/hostctl/executor.py:997-1013 | Under the transports' promise, providers that declined were sent no byte of the command |
| `HostRun.Next` | src/hostctl/system/_host.py:735-760 | One attempt goes to a provider not tried yet before which every usable one was tried or refused, and remembers exactly a decline |
| `HostRun.Run` | src/hostctl/system/_host.py:733-767 | Each provider is tried at most once, all but the last declined, at most one passed its send point, the caller sees the ending of that one (its own status, or its own error), `no provider` comes only when every usable provider declined in this call, and the refusals remembered are those of before and of this call |
| `PathRouting.CompositePath.EffectiveCapabilities` | src/hostctl/paths/_mixin.py:366-370 | The declared set narrowed by the probe of this generation |
| `PathRouting.CompositePath.Try` | src/hostctl/paths/_mixin.py:434-527 | One provider's part leaves the entry state or the adopted one, and restores the entry state after a refusal that permits another try |
| `PathRouting.CompositePath.DispatchFree` | src/hostctl/paths/_mixin.py:392-527 | Each provider tried can serve the operation and is the first in order that could, but for those tried before it and those refused before the call; only a refusal that permits it leads to the next; the state is that of entry or fixed to the last one tried |
| `PathRouting.CompositePath.DispatchPinned` | src/hostctl/paths/_mixin.py:392-432 | A fixed path calls its own provider exactly if that can serve the operation, and nobody else |
| `PathRouting.CompositePath.Dispatch` | src/hostctl/paths/_mixin.py:434-527 | After every operation the routing state is that of entry or fixed to the last provider tried; it is that of entry when all refused; an operation that may not be repeated goes no further after `NotImplementedError`; the selector remembers exactly the providers that refused as not started, never one that cannot do this operation |
| `PathRouting.Operate` | src/hostctl/paths/_mixin.py:383-527 | Over any sequence of operations a path that became fixed keeps its provider |
| `PathRouting.PinnedStays` | src/hostctl/paths/_mixin.py:383-390 | One operation never changes the provider of a fixed path |
| `PathRouting.OnlyRefusalsLeadOn` | src/hostctl/paths/_mixin.py:434-527 | Another provider is called only behind a refusal that proves nothing happened or, where the operation may be repeated, one by a provider that cannot do it; never behind a success or another error |
| `PathRouting.SupportsIs` | src/hostctl/paths/_forwarding.py:72-83 | An operation is covered by one of its alternatives, by the wildcard, or a read by `open` |
| `Crt.QuotedReadsAs` | src/hostctl/shell/_cmd.py:27-43 | A value escaped between quotes is read by the C runtime as one argument, itself, for every value |
| `Crt.BareReadsAs` | src/hostctl/shell/_cmd.py:22-23 | A bare value without quotes and blanks is read as itself |
| `Crt.JoinReads` | src/hostctl/shell/_cmd.py:247-288 | Words that each read as one argument, joined by blanks, read as those arguments |
| `Cmd.QuoteArgument` | src/hostctl/shell/_cmd.py:20-43 | The quoting loop writes the specified word |
| `Cmd.CaretsFirst` | src/hostctl/shell/_cmd.py:24-26 | The chained replacements put exactly one caret before each special character |
| `Cmd.ArgumentParsesAs` | src/hostctl/shell/_cmd.py:20-43 | cmd takes the carets away, acts on nothing, and hands on the text escaped for the C runtime |
| `Cmd.ArgvSurvives` | src/hostctl/shell/_cmd.py:247-288 | For every argument vector cmd meets no operator it would act on, and the C runtime reads the vector back |
| `Cmd.EchoArgumentIs` | src/hostctl/shell/_cmd.py:46-51 | The echo escaping is one caret before each special character |
| `Cmd.OneParseMore` | src/hostctl/shell/_cmd.py:218-235 | Exactly one extra cmd parse undoes the escaping, acting on nothing |
| `Cmd.LineStarts` | src/hostctl/shell/_cmd.py:333-340 | The line's program is read back as the path, and the `/s /c` rule takes exactly the script from its options |
| `Cmd.ArgvThroughLoginCmd` | src/hostctl/shell/_cmd.py:324-345 | Through a login cmd, the cmd it starts and the C runtime the program is found and every argument vector arrives unchanged |
| `Batch.BatchToken` | src/hostctl/shell/_cmd.py:89-113 | The loop writes the specified token |
| `Batch.ExpandPercent` | src/hostctl/shell/_cmd.py:89-113 | The written percent sign expands to one percent sign, whatever the variables are |
| `Batch.TokenSurvives` | src/hostctl/shell/_cmd.py:89-113 | The percent phase takes nothing from any variable; cmd reads what it leaves as quoted data in both parses; the C runtime reads the value |
| `PowerShell.DoublesOnce` | src/hostctl/shell/_powershell.py:30-40 | The five chained replacements double every straight and curly quote exactly once |
| `PowerShell.LiteralLexes` | src/hostctl/shell/_powershell.py:30-40 | PowerShell reads the literal of every text as that text |
| `PowerShell.EscapeForCrt` | src/hostctl/shell/_powershell.py:43-78 | The loop writes the specified escaped text |
| `PowerShell.BinderWraps` | src/hostctl/shell/_powershell.py:81-99 | The loop decides whether white space stands behind an even number of counted quotes |
| `PowerShell.TokenReadsAs` | src/hostctl/shell/_powershell.py:271-280 | What the binder makes of an accepted value's token is read by the child as that value |
| `PowerShell.ArgvSurvives` | src/hostctl/shell/_powershell.py:238-281 | Every vector of accepted arguments reaches a native child unchanged through the literal, the version 5 binder and the C runtime |
| `PowerShell.RefusalProtects` | src/hostctl/shell/_powershell.py:273-279 | A value refused as splitting would arrive changed if and only if it holds a blank or ends in a backslash |
| `PowerShell.RefusedInVain` | src/hostctl/shell/_powershell.py:273-279 | A concrete value that is refused and yet would arrive unchanged: a quote and a no-break space |
| `PowerShell.BatchArgumentSurvives` | src/hostctl/shell/_powershell.py:255-262 | An accepted batch argument passes the binder of every version untouched, and then cmd's percent phase, both cmd parses and the C runtime give the value |
| `LoginShell.LoginJoin` | src/hostctl/shell/_vocabulary.py:151-178 | The loops write the specified line |
| `LoginShell.LoginJoinReadsBack` | src/hostctl/shell/_vocabulary.py:151-178 | Both an sh lexer and a fish lexer read the line back as the same arguments, for every argument vector |
| `LoginShell.QuoteReadsAs` | src/hostctl/shell/_posix.py:35-38 | Each shell's quoted value is read by that shell as one word, the value |
| `LoginShell.CommandReachesInnerShell` | src/hostctl/shell/_posix.py:56-74 | A structured command reaches the inner shell word for word whichever login shell reads the outer line |
| `Script.Join` | src/hostctl/shell/_flavour.py:248-288 | The loop writes the specified pieces and returns their text, or refuses |
| `Script.JoinRefusesMisplaced` | src/hostctl/shell/_flavour.py:248-288 | A list is refused exactly when some operator does not stand between two commands |
| `SourceText.JoinMeans` | src/hostctl/shell/_flavour.py:248-288 | For every mix of operators, pipes and redirections: the text that is returned, read character by character, gives back the pieces, and reads as it was put together if and only if every command that needs a line end behind it (a here-document, a comment) and is followed by another holds a line end and has no operator but a sequence behind it; and it then runs exactly the guarded statements that the tokens stand for |
| `SourceText.SourceIsText` | src/hostctl/shell/_flavour.py:288-288 | The marked source is exactly the returned text, with the callers' units marked |
| `SourceText.ReadsBack` | src/hostctl/shell/_posix.py:40-54 | The characters of any pieces in which commands and operators take turns are read back as those pieces, in both dialects |
| `SourceText.AssembledInTurn` | src/hostctl/shell/_flavour.py:290-356 | In every script commands and operators take turns |
| `Script.PiecesMean` | src/hostctl/shell/_flavour.py:248-288 | The same of the joined pieces |
| `Script.RunListIs` | src/hostctl/shell/_posix.py:40-48 | The nested lists of POSIX.1-2017 section 2.9.3 and the flat guarded statements of fish describe the same run |
| `Script.NoTextNoPieces` | src/hostctl/shell/_flavour.py:307-320 | The program's test for empty text agrees with the model's test for no pieces |
| `Script.Assemble` | src/hostctl/shell/_flavour.py:290-328 | The parts are put together in order with separators that suit the text so far, and their text is returned |
| `SourceText.ScriptRuns` | src/hostctl/shell/_flavour.py:290-356 | The text of the script, read character by character, gives back its pieces, and reads as it was put together if and only if the joined commands do and, with a directory, the joined text holds a line end if its last command needs one; then, when the directory cannot be entered no payload command runs, and otherwise it runs exactly what the payload alone runs in the new directory and environment |
| `Script.PiecesRun` | src/hostctl/shell/_flavour.py:290-356 | The same of the assembled pieces |
| `Script.StepsClose` | src/hostctl/shell/_flavour.py:333-338 | After every step the separators written give each text that needs a line end one, exactly as long as the commands so far fit |
| `Script.GroupKeeps` | src/hostctl/shell/_flavour.py:340-345 | The group leaves every text its line end exactly if the payload does and, when its last text needs one, holds a line end somewhere |
| `Script.UnendedSwallows` | src/hostctl/shell/_flavour.py:333-345 | Every text that needs a line end and holds none is fine alone, and is misread behind a directory and before any other command |
| `Script.CommentSwallows` | src/hostctl/shell/_flavour.py:333-345 | The raw source `ls # note` alone reads as written; `cd -- /srv&&{ ls # note; }` and `ls # note;pwd` do not |
| `Demux.FramesReadBack` | src/hostctl/transports/container/_process.py:145-159 | For all frames as the daemon writes them, with every payload below 4 GiB, and every incomplete rest, taking the wire apart gives each stream's bytes in order and that rest |
| `Demux.SizeReadsBack` | src/hostctl/transports/container/_process.py:149-149 | Four big-endian bytes are read as the number they were written for, for every number below 2 to the 32 |
| `Demux.PayloadAppend` | src/hostctl/transports/container/_process.py:138-143 | Bytes that arrive later only continue what was left over, wherever the wire is cut |
| `Demux.ContainerProcess.ConsumeFrames` | src/hostctl/transports/container/_process.py:145-159 | Every whole frame moves to the end of its queue in wire order, the rest stays, and the result says whether there was one |
| `Demux.ContainerProcess.Receive` | src/hostctl/transports/container/_process.py:128-143 | Nothing received is lost or reordered; it raises exactly when the socket ends inside a frame, and then the queues are untouched |
| `Demux.ContainerProcess.ReceiveAvailable` | src/hostctl/transports/container/_process.py:270-300 | Takes exactly what is ready before the first moment with nothing ready; the end of the socket is met exactly when nothing else was left |
| `Demux.ContainerProcess.ReadStream` | src/hostctl/transports/container/_process.py:166-204 | A sized read gives at most its size, waits for nothing when something is queued, is empty only at the end, and loses nothing; a read to the end gives everything, or raises exactly on a wire that will end inside a frame, and then loses exactly what its stream still had |
| `Demux.ContainerProcess.Wait` | src/hostctl/transports/container/_process.py:244-264 | Drains what is ready first, keeps all of it, and returns the cached or found status |
| `Demux.ContainerProcess.Close` | src/hostctl/transports/container/_process.py:308-329 | Ends the stream and keeps what is queued |
| `Demux.Run` | src/hostctl/transports/container/_process.py:124-329 | Over any calls in any order on any socket every stream stays conserved if all reads have a bound, or the wire ends with a whole frame, or the stream has nothing on it; the error for a cut frame is raised once if the socket ended inside one and never otherwise |
| `Demux.Call` | src/hostctl/transports/container/_process.py:166-329 | One call keeps a stream conserved - what was handed out, followed by what is queued, is what the stream sent - exactly unless it reads that stream to the end, on a wire that will end inside a frame, while the stream still has bytes to hand out |
| `Demux.FirstReadLoses` | src/hostctl/transports/container/_process.py:171-183 | For every wire that ends inside a frame and every stream with bytes on it, a first read to the end loses all of them |
| `Demux.AtTheEnd` | src/hostctl/transports/container/_process.py:161-164 | At the end of the socket every byte was received, and the end is clean exactly when the wire ends with a whole frame |
| `Demux.ReadToEndCanLose` | src/hostctl/transports/container/_process.py:171-183 | The smallest such wire: one frame and one byte |
| `Closure.CanonicalTwice` | src/hostctl/deploy/_closure.py:61-63 | The normal form of a name is its own normal form |
| `Closure.CanonicalIsOne` | src/hostctl/deploy/_closure.py:61-63 | Two names have one normal form if and only if they differ in case and in hyphens, underscores and dots only |
| `Closure.CanonicalIsPlain` | src/hostctl/deploy/_closure.py:61-63 | The normal form is the one of these names in lower case with hyphens |
| `Closure.GatedIsFollowed` | src/hostctl/deploy/_closure.py:139-149 | A requirement gated by an extra is followed if and only if the node was reached with that extra; one of the environment if and only if it holds there |
| `Closure.ReachableIsLeast` | src/hostctl/deploy/_closure.py:120-151 | The reachable nodes are contained in every set that has the root and is closed under the requirements |
| `Closure.ReachableIsClosed` | src/hostctl/deploy/_closure.py:120-151 | The reachable nodes are such a set themselves |
| `Closure.Evaluate` | src/hostctl/deploy/_closure.py:139-149 | A requirement counts exactly when its marker holds for one of the extras the node was reached with, or for none |
| `Closure.Push` | src/hostctl/deploy/_closure.py:136-150 | Every active requirement becomes pending, and nothing that cannot be reached does |
| `Closure.Requirements` | src/hostctl/deploy/_closure.py:102-151 | Ends on every finite graph, cyclic or not; its keys are exactly the installed names that are not never-bundled and are reachable with some extras, each with its own distribution |
| `Closure.MissingOn` | src/hostctl/deploy/_closure.py:154-173 | Exactly the closure without the names the target has and the names to skip, compared in normal form |
| `Leasing.StreamLease.Acquire` | src/hostctl/executor.py:572-577 | Busy changes nothing; otherwise a new token holds the lease |
| `Leasing.StreamLease.Release` | src/hostctl/executor.py:579-585 | Ends the token; frees the lease only if it is the holder's own |
| `Leasing.StreamLease.Revoke` | src/hostctl/executor.py:587-597 | Ends whoever holds it |
| `Leasing.LeasedStreamProcess.Close` | src/hostctl/process.py:213-225 | One winner tears down once, raising or not, and gives back its own acquisition; a close that comes later or after a revoke changes nothing |
| `Leasing.StepKeeps` | src/hostctl/executor.py:553-597 | Every atomic step of any thread keeps the invariant |
| `Leasing.RunsAreSound` | src/hostctl/executor.py:553-597 | Over every interleaving: the callback ran once for each acquisition that is over, in order, and for no other; one teardown at most per process; nothing that gave the lease back holds it |
| `Leasing.RunsOnlyAdd` | src/hostctl/executor.py:579-597 | What ended stays ended, and a callback or a teardown is never taken back, however a run goes on |
| `Leasing.OneCanUseIt` | src/hostctl/process.py:187-189 | At most one process can still do I/O, the holder |
| `Leasing.OnlyItsOwnFrees` | src/hostctl/executor.py:579-597 | The holder loses the lease exactly to a revoke or to its own token, never to a stale or late close |
| `Leasing.CloserGoesOn` | src/hostctl/process.py:217-225 | A close that won keeps its place whatever other threads do between its steps |
| `Terminal.ConsoleExecutor.Send` | src/hostctl/console/_executor.py:76-110 | Every exit of the send has either freed the terminal or left it with this command for the caller to free; a refusal leaves it held exactly when the stream refuses the line itself |
| `Terminal.ConsoleExecutor.Stop` | src/hostctl/console/_executor.py:151-163 | Interrupts and frees exactly when this command holds the terminal, whatever the hook does |
| `Terminal.ConsoleExecutor.ReceiveAll` | src/hostctl/console/_executor.py:112-130 | The terminal is freed exactly when a status arrives before the deadline and before an error |
| `Terminal.ConsoleExecutor.DispatchRequest` | src/hostctl/executor.py:971-1024 | A command that gets the terminal takes it once and frees it once on every exit, if and only if the stream does not refuse the command line as never started; it is declined exactly when it proves that nothing started, and returns exactly the status that arrives in time when nothing raises; its acts are exactly its files, its line and, unless a status came, one interrupt; a decline typed no line |
| `Terminal.HolderIsInside` | src/hostctl/console/_executor.py:73-74 | In every interleaving the lock belongs to the one command that is between taking and freeing it |
| `Terminal.TraceBehaves` | src/hostctl/executor.py:971-1024 | The whole trace of a dispatch takes the terminal once, types only while it has it and frees it once, whatever the stream, the sinks and the hook do - or keeps it when the stream refuses the line |
| `Terminal.TypingNeverMixes` | src/hostctl/console/_executor.py:40-45 | In every interleaving of any number of dispatches, finished or under way, between two pieces that one command types there is nothing of another |
| `Lifecycle.SystemHost.EnsureProviderConnected` | src/hostctl/system/_host.py:966-982 | Connects a provider once, adds no duplicate, and changes nothing on a decline |
| `Lifecycle.SystemHost.Connect` | src/hostctl/system/_host.py:422-470 | The list becomes the first provider of each set that did not decline; everything open stays within a close's reach exactly when nothing open belongs to a provider that is gone |
| `Lifecycle.ChosenIsFirst` | src/hostctl/system/_host.py:433-456 | What a selector's attempts end with is the first provider that does not decline, and none if all do |
| `Lifecycle.TwiceWhenShared` | src/hostctl/system/_host.py:433-456 | Whatever the selectors choose, a connect lists no provider twice, if and only if the host's two sets share none |
| `Lifecycle.SharedIsListedTwice` | src/hostctl/system/_host.py:433-468 | A concrete host with one provider in both sets, which a connect lists twice |
| `Lifecycle.SystemHost.ReplaceProviders` | src/hostctl/system/_host.py:261-327 | Exactly the transports that only replaced providers have are closed, each once, errors included; a transport that a kept provider shares is not closed; kept providers stay listed |
| `Lifecycle.SystemHost.Close` | src/hostctl/system/_host.py:521-557 | Leaves nothing open exactly when everything open belonged to a listed or present provider |
| `Lifecycle.SystemHost.CloseAll` | src/hostctl/system/_host.py:537-548 | Closes what is not closed yet, each once, and an error of one does not spare the others |
| `Lifecycle.Run` | src/hostctl/system/_host.py:261-557 | Over any steps on the host's providers of the moment: if the two sets share no provider at the start and after every replacement, none is ever listed twice; no transport is closed twice between two connects; everything open stays within a close's reach, and a close leaves nothing open |
| `Lifecycle.LostIs` | src/hostctl/system/_host.py:261-557 | Over any steps, late uses included, a transport ends open and out of a close's reach exactly if a connect found it open without a present provider that has it, and no later step connected or installed a provider that has it |
| `Lifecycle.FinalClose` | src/hostctl/system/_host.py:521-557 | After any such steps a final close leaves nothing open exactly if no connect lost a transport for good |
| `Lifecycle.RunAny` | src/hostctl/system/_host.py:261-557 | The host's own methods follow these books over any steps, uses of providers that are gone included; so they close everything at the end under exactly that condition, and close no transport twice between two connects |
| `Lifecycle.LateConnectLeaks` | src/hostctl/system/_host.py:433-468 | A concrete run: a provider selected before a replacement and connected after it stays open through a close once a connect has forgotten it |

## Left out

- Real I/O, clocks, back-off delays, texts of logs, traces and errors, credential redaction (names stand for themselves), text decoding of output, and output sinks other than whether they raise.
- Console: negotiation and login steps, the cutting of one batch into writes, a stream that fails or ends during a command, and the ^C of a passed acknowledgement deadline; the number of digits Python converts in a status is not bounded.
- TypedLines.RunTyped: where reads are dropped after the last acknowledgement, what came with that acknowledgement is taken to end in no beginning of the start marker; a line editor that redraws inside a line counts as noise, so what it shows there may begin no marker either.
- TypedShell: the command that is evaluated does not touch the run's own variables and directory, nor the terminal's settings; `mktemp`, `stty` and `cat` work; `$?` behind an assignment with a substitution is taken as zero; a substitution is one command.
- TypedRun.CommandArrives: what a shell makes of a command with NUL in it is open, as it is in POSIX.
- Printers: parameter expansion of plain names only, and no `printf` format beyond `%s`, `%%` and ordinary characters.
- Deploy: `install_pyz`, whose marker is written after its rename, and two deploys of one target at a time. A digest stands for the payload that a fixed catalog gives for it.
- Selection: the reason and cause of a refusal, the report of a fallback, and threads inside one selection. A probe's answer is fixed for one generation.
- HostRun: `spawn`, runspaces and provider-specific rendering; an empty provider list is the same failure as no provider left.
- Paths: a composite path without a selector, `via`, `copy` and `move` between paths, and reading metadata.
- cmd: the expansion of `%VAR%` in arguments other than batch tokens, which carry a caret in every percent sign (no variable's name holds one), `!VAR!`, variables that are not defined by a plain name, `call`, `start`, and arguments of builtins.
- PowerShell: cmdlet binding, `-EncodedCommand`, program names that need the call operator, and the version 7 argument list.
- Login shells: zsh's quoting, assignment words and reserved words in first position.
- SourceText: a caller's command, a quoted operand, a name and a value are units with known borders, each read as one (`LoginShell.QuoteReadsAs` reads the quoted ones).
- Script: a caller's raw text counts as one complete command; which texts need a line end behind them is given, and the empty text needs none; `NAME=value` and directory operands are taken as quoted; cmd and PowerShell scripts.
- Demux.ContainerProcess.ReadStream: binary mode only, so the incremental decoder's held bytes are not modelled; a socket that raises instead of ending is not either.
- Closure: how distributions, requirements and markers are read (PEP 503 and PEP 508), and the order of a requirement's extras, which is the given one; letters beyond ASCII are not lowered.
- Terminal.ConsoleExecutor.Send: a wait for the terminal that succeeds is modelled as a call that comes when it is free.
- Lifecycle: a transport or provider is its identity; a connect that fails other than by declining, the session initializer, and paths that reopen a transport behind a closed host.
