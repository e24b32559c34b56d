/**
 * The whole of `main` in src/main.rs: classify the arguments, ask the file
 * system about the path, then print the file. Process exit is a returned
 * status; what the file system answers for the path is an input.
 */
module Katz {

  import opened Arguments
  import opened LineStream

  /** The message main.rs prints before stopping (its text is not modelled). */
  datatype Diagnostic =
    | UsageLine
    | HelpText
    | UnknownOptionMessage(arg: string)
    | SinglePathMessage
    | NoPathMessage
    | DirectoryMessage
    | CannotOpenMessage
    | CannotPrintMessage

  /**
   * What the file system answers for the path: whether it is a directory,
   * whether it opens, and the file's lines as the reader yields them.
   */
  datatype FileAnswers = FileAnswers(isDir: bool, opens: bool, lines: seq<LineRead>)

  /**
   * The end of a run: its exit status, the file lines written to standard
   * output, and the diagnostic written after them, if any.
   */
  datatype Exit = Exit(status: int, written: seq<string>, diagnostic: Option<Diagnostic>)

  function Session(args: seq<string>, fs: FileAnswers): Exit {
    match Classify(args)
    case Usage => Exit(0, [], Some(UsageLine))
    case Help => Exit(0, [], Some(HelpText))
    case BadArgument(UnrecognizedOption(a)) => Exit(1, [], Some(UnknownOptionMessage(a)))
    case BadArgument(SecondPath(_)) => Exit(1, [], Some(SinglePathMessage))
    case MissingPath => Exit(0, [], Some(NoPathMessage))
    case Proceed(cfg, _) =>
      if fs.isDir then Exit(0, [], Some(DirectoryMessage))
      else if !fs.opens then Exit(1, [], Some(CannotOpenMessage))
      else
        var t := Transform(cfg, fs.lines);
        if t.readFailed then Exit(1, t.out, Some(CannotPrintMessage))
        else Exit(0, t.out, None)
  }

  /** `main`, with the two loops as methods. */
  method Execute(args: seq<string>, fs: FileAnswers) returns (e: Exit)
    ensures e == Session(args, fs)
  {
    var o := ParseArguments(args);
    match o {
      case Usage => return Exit(0, [], Some(UsageLine));
      case Help => return Exit(0, [], Some(HelpText));
      case BadArgument(err) =>
        if err.UnrecognizedOption? {
          return Exit(1, [], Some(UnknownOptionMessage(err.arg)));
        }
        return Exit(1, [], Some(SinglePathMessage));
      case MissingPath => return Exit(0, [], Some(NoPathMessage));
      case Proceed(cfg, path) =>
        if fs.isDir {
          return Exit(0, [], Some(DirectoryMessage));
        }
        if !fs.opens {
          return Exit(1, [], Some(CannotOpenMessage));
        }
        var out, failed := PrintLines(cfg, fs.lines);
        if failed {
          return Exit(1, out, Some(CannotPrintMessage));
        }
        e := Exit(0, out, None);
    }
  }

  /**
   * The status is 1 exactly for bad arguments, a file that does not open,
   * and a read error while printing; every other way out is 0.
   */
  lemma StatusOneIff(args: seq<string>, fs: FileAnswers)
    ensures var o := Classify(args);
      && Session(args, fs).status in {0, 1}
      && (Session(args, fs).status == 1 <==>
            || o.BadArgument?
            || (o.Proceed? && !fs.isDir && (!fs.opens || Transform(o.config, fs.lines).readFailed)))
  {
  }

  /** The file is printed only when classification proceeds and the path is a file that opens. */
  lemma WrittenOnlyWhenOpened(args: seq<string>, fs: FileAnswers)
    requires Session(args, fs).written != []
    ensures Classify(args).Proceed? && !fs.isDir && fs.opens
  {
  }

  /** An unrecognised option ends the run with status 1 and nothing printed, help or not. */
  lemma UnrecognizedOptionFails(args: seq<string>, fs: FileAnswers, k: nat)
    requires 1 <= k < |args|
    requires LooksLikeOption(args[k]) && !Recognized(args[k])
    ensures Session(args, fs).status == 1 && Session(args, fs).written == []
  {
    UnrecognizedOptionRejects(args, k);
  }

  /** A help switch with otherwise acceptable arguments shows help, whatever the path. */
  lemma HelpShown(args: seq<string>, fs: FileAnswers, k: nat)
    requires 1 <= k < |args| && IsHelp(args[k])
    requires Acceptable(args[1..], false)
    ensures Session(args, fs) == Exit(0, [], Some(HelpText))
  {
    HelpIff(args);
  }

  /** A file read to its end leaves status 0 and the reference output. */
  lemma CleanRun(args: seq<string>, fs: FileAnswers)
    requires Classify(args).Proceed? && !fs.isDir && fs.opens
    requires NoReadError(fs.lines, |fs.lines|)
    ensures Session(args, fs)
         == Exit(0, Reference(Classify(args).config, fs.lines, |fs.lines|), None)
  {
    TransformCompletes(Classify(args).config, fs.lines);
  }

  /** An empty file gives no output and status 0, with any switches. */
  lemma EmptyFileRun(args: seq<string>, fs: FileAnswers)
    requires Classify(args).Proceed? && !fs.isDir && fs.opens && fs.lines == []
    ensures Session(args, fs) == Exit(0, [], None)
  {
    EmptyFile(Classify(args).config);
  }
}
