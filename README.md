# katz, modelled in Dafny

katz is a small `cat`-like viewer. It takes one file path and optional
switches, `-H/--help`, `-E/--endline`, `-N/--number` and
`-C/--compressed`. It prints the file line by line. Each line can get its
0-based index as a prefix and a `$` before the newline. In compressed mode
some empty lines are dropped. The whole program is `main` in `src/main.rs`.
This project models its two loops and the decisions around them.

- `decimal.dfy` (module `Decimal`): how an index is written in decimal, and a
  parser that reads it back.
- `arguments.dfy` (module `Arguments`): the argument loop and the checks
  after it. `Scan` and `Classify` are the specification. `ParseArguments` is
  the loop, proved to compute `Classify`.
- `linestream.dfy` (module `LineStream`): the print loop with its blank-line
  counter `blc`. `Run` is the loop written as a fold over the lines, and
  `PrintLines` is the loop itself, proved to agree with `Run`. `Reference`
  describes the loop's output independently: in compressed mode, the i-th
  empty line of the file (counting from 1) is dropped iff i is even.
  `RunIsReference` proves that `Run` and `Reference` agree.
- `katz.dfy` (module `Katz`): the whole of `main`. It returns an exit status,
  the lines written and the diagnostic printed.

Three things that `main` gets from the outside are inputs to the model:

- whether the path is a directory;
- whether the file opens;
- the file's lines, each either its text or a read error.

The code does not guarantee that compressed output has at most one blank
line in a row. A non-empty line never resets `blc`, so the dropped empty
lines are every second empty line of the whole file, and the count runs
across any text in between. Three empty lines in a row therefore give two
adjacent blank lines (`LineStream.ThreeBlanksGiveTwo`). In particular,
compressed output can contain two blank lines in a row.

## Model

| member | source | states |
|---|---|---|
| `Decimal.DecimalString` | src/main.rs:115 | an index is written as a non-empty string of decimal digits, with no leading zero unless it is 0 |
| `Decimal.ParseDecimalString` | src/main.rs:115 | reading back a written index gives the index |
| `Decimal.DecimalStringInjective` | src/main.rs:115 | different indices are written differently |
| `Decimal.LeadingNumberOf` | src/main.rs:115 | when a written index is followed by a non-digit, the digits stop where the index ends and read back as the index |
| `Arguments.ParseArguments` | src/main.rs:9-68 | the argument loop, with its early exits and the help and path checks after it, returns exactly the outcome `Classify` specifies |
| `Arguments.UsageIff` | src/main.rs:9-12 | usage is the outcome iff there is no argument after the program name |
| `Arguments.ScanAcceptsIff` | src/main.rs:23-56 | the walk succeeds iff every argument starting with `-` is one of the eight spellings, no two arguments are paths, and no argument is a path when a path is already held |
| `Arguments.ScanFlag` | src/main.rs:25-40 | after a successful walk, a switch is on iff it was on before or one of its two spellings occurs |
| `Arguments.ScanPath` | src/main.rs:41-54 | after a successful walk, a path is held iff some argument does not start with `-`, and the path is one of the arguments |
| `Arguments.SwitchGiven` | src/main.rs:23-40 | over the whole argument list, a switch is on iff one of its spellings occurs after the program name |
| `Arguments.PathGiven` | src/main.rs:41-54 | over the whole argument list, a path is held iff some argument after the program name is a path argument |
| `Arguments.UnrecognizedOptionRejects` | src/main.rs:23-62 | an unrecognised option anywhere gives bad arguments, even with `--help` present, because help is checked only after the loop |
| `Arguments.TwoPathsReject` | src/main.rs:47-53 | two path arguments give bad arguments |
| `Arguments.BadArgumentIff` | src/main.rs:23-56 | the arguments are bad iff there is an argument list and the walk finds an unrecognised option or a second path |
| `Arguments.HelpIff` | src/main.rs:23-62 | help is the outcome iff the arguments are acceptable and a help spelling occurs, whatever the path |
| `Arguments.MissingPathIff` | src/main.rs:58-68 | a missing path is the outcome iff the arguments are acceptable with no help spelling and no path argument |
| `Arguments.ProceedConfig` | src/main.rs:15-68 | when the transform runs, each of its switches is on iff one of its spellings was given; no help spelling was given; the path is an argument that does not start with `-` |
| `Arguments.SwitchCommutes` | src/main.rs:25-40 | giving a switch before or after any other argument makes no difference to the walk |
| `Arguments.SwitchIdempotent` | src/main.rs:25-40 | giving a switch twice is the same as giving it once |
| `Arguments.SwapSwitch` | src/main.rs:23-40 | swapping a switch with its right neighbour leaves the outcome unchanged |
| `Arguments.RepeatSwitch` | src/main.rs:23-40 | repeating a switch leaves the outcome unchanged |
| `LineStream.RenderParts` | src/main.rs:114-124 | a written line is its optional prefix, then the text unchanged, then `$\n` or `\n`; with numbering on, the prefix is the index (it reads back) and a space; with numbering off, there is no prefix |
| `LineStream.FailureSticks` | src/main.rs:96-101 | after a read error nothing further is written |
| `LineStream.PrintLines` | src/main.rs:91-125 | the print loop, including its `continue` and its exit on a read error, produces exactly the output and failure flag that `Transform` specifies |
| `LineStream.RunIsReference` | src/main.rs:91-112 | without a read error the loop writes exactly the reference output; `blc` is the parity of the empty lines seen in compressed mode and their count otherwise |
| `LineStream.CounterStaysSmall` | src/main.rs:104-111 | in compressed mode `blc` is 0 or 1 at the head of every iteration, so the `u8` cannot overflow there |
| `LineStream.TransformCompletes` | src/main.rs:95-125 | a file with no read error ends without failure and writes the reference output |
| `LineStream.ReadErrorStops` | src/main.rs:95-101 | a read error on line k ends in failure; the lines written are exactly those that lines 0..k-1 produce, and nothing comes from line k or later |
| `LineStream.EmptyFile` | src/main.rs:95 | an empty file writes nothing and does not fail |
| `LineStream.ReferenceFromKept` | src/main.rs:95-124 | the j-th written line is the kept line k[j], rendered with its original index |
| `LineStream.KeptIndices` | src/main.rs:104-112 | the kept indices are strictly increasing and in range; a line is kept iff it is not an even-numbered empty line in compressed mode; a non-empty line is always kept |
| `LineStream.NumberedWithOriginalIndex` | src/main.rs:95-116 | with numbering on, every written line, including those written before a read error, starts with exactly the decimal text of the 0-based index of its original line, followed by a space; dropped lines do not shift the numbers |
| `LineStream.EveryLineTerminated` | src/main.rs:118-124 | every written line ends with `$\n` when endline is set and with `\n` otherwise, whatever the other switches and even when a read error follows |
| `LineStream.Uncompressed` | src/main.rs:95-124 | with compression off and no read error, each input line is written exactly once, in order, with its text unchanged, so there are as many lines out as in |
| `LineStream.KeptCount` | src/main.rs:104-111 | in compressed mode floor(E/2) of the E empty lines are dropped: floor(E/2) fewer indices are kept than there are lines, and ceil(E/2) of the kept indices are empty lines; no index is dropped otherwise |
| `LineStream.OutputLength` | src/main.rs:95-125 | a file read without error is written floor(E/2) lines shorter in compressed mode, where E is its number of empty lines, and at full length otherwise |
| `LineStream.CompressedExample` | src/main.rs:104-124 | in compressed mode, `a`, empty, empty, `b` is written as `a`, empty, `b` |
| `LineStream.NumberedExample` | src/main.rs:114-118 | with numbering, `x`, `y` is written as `0 x`, `1 y` |
| `LineStream.EndlineExample` | src/main.rs:118-121 | with endline, `x` is written as `x$` |
| `LineStream.ThreeBlanksGiveTwo` | src/main.rs:104-112 | in compressed mode, three empty lines in a row give two adjacent blank lines |
| `LineStream.CounterSurvivesText` | src/main.rs:104-112 | a non-empty line does not reset `blc`: in compressed mode, empty, `t`, empty, empty drops the first empty line after the text |
| `Katz.Execute` | src/main.rs:6-125 | the whole of `main` (classify, directory check, open, print) returns exactly the exit that `Session` specifies |
| `Katz.StatusOneIff` | src/main.rs:41-101 | the status is always 0 or 1, and it is 1 exactly for bad arguments, a file that does not open, or a read error while printing |
| `Katz.WrittenOnlyWhenOpened` | src/main.rs:59-87 | file lines are written only after classification proceeds and the path is a file that opens |
| `Katz.UnrecognizedOptionFails` | src/main.rs:43-45 | an unrecognised option ends the run with status 1 and no file output |
| `Katz.HelpShown` | src/main.rs:59-61 | a help spelling with otherwise acceptable arguments gives status 0 and the help text only, whatever the path and the file |
| `Katz.CleanRun` | src/main.rs:89-125 | a file read to its end gives status 0 and the reference output |
| `Katz.EmptyFileRun` | src/main.rs:93-125 | an empty file gives status 0 and no output, whatever the switches |

## Left out

- Process arguments, standard output and `std::process::exit` are not real effects in the model. Arguments are a `seq<string>` input. What is written is a returned sequence of lines plus a diagnostic tag. The exit is a returned status.
- The texts of the usage line, the help message and the error messages are not modelled (src/main.rs:10, 44, 49, 60, 66, 72, 80-84, 99). Each message is a `Diagnostic` tag, and the offending argument is kept for an unrecognised option.
- `Path::is_dir` and `File::open` (src/main.rs:71-87) are filesystem queries. They are inputs (`FileAnswers`), and the open error's text is not modelled.
- `BufReader::lines` (src/main.rs:93-95) splits lines and decodes UTF-8, including the handling of `\n` versus `\r\n`. The model does not do this. It takes the lines already split, each either its text or a read error.
- `blc` is a `u8` in the source and a `nat` here. With compression off, the source never resets it, so the 256th empty line would overflow it: a panic in a debug build, a wrap in a release build. The model does not capture this. With compression on, `blc` stays at 0 or 1 (`LineStream.CounterStaysSmall`).
- Write failures on standard output are not modelled. `print!` and `println!` panic on such a failure, and the model treats every write as succeeding.
- The index is a `nat`. The source's `usize` counter from `enumerate` would overflow after `usize::MAX` lines (2^32 on a 32-bit target), and the model does not capture this.
