/**
 * Command-line classification of katz (src/main.rs, lines 9-68).
 *
 * The program walks `args[1..]` once, setting four switches and remembering
 * at most one path; it stops at the first unrecognised option or second
 * path. Only after the walk does it look at `help` and then at the path.
 * `Scan` is that walk as a function, `Classify` the whole decision, and
 * `ParseArguments` the loop itself, proved to compute `Classify`.
 */
module Arguments {

  datatype Option<T> = None | Some(value: T)

  /** The four switches the loop sets. */
  datatype Flags = Flags(help: bool, endline: bool, number: bool, compressed: bool)

  /** The switches the line transform reads. */
  datatype Config = Config(endline: bool, number: bool, compressed: bool)

  /** The loop's variables between two arguments. */
  datatype ScanState = ScanState(flags: Flags, path: Option<string>)

  /** Why the walk stopped early; both end the process with status 1. */
  datatype ArgError = UnrecognizedOption(arg: string) | SecondPath(arg: string)

  datatype ScanResult = Scanned(state: ScanState) | Rejected(error: ArgError)

  /** Where classification leaves the program. */
  datatype Outcome =
    | Usage                               // no argument after the program name
    | Help                                // a help switch and no error
    | BadArgument(error: ArgError)        // walk stopped early
    | MissingPath                         // no path given
    | Proceed(config: Config, path: string)

  predicate IsHelp(a: string) { a == "-H" || a == "--help" }
  predicate IsEndline(a: string) { a == "-E" || a == "--endline" }
  predicate IsNumber(a: string) { a == "-N" || a == "--number" }
  predicate IsCompressed(a: string) { a == "-C" || a == "--compressed" }

  /** One of the eight spellings the `match` knows. */
  predicate Recognized(a: string) {
    IsHelp(a) || IsEndline(a) || IsNumber(a) || IsCompressed(a)
  }

  /** `arg.starts_with("-")`. */
  predicate LooksLikeOption(a: string) {
    |a| > 0 && a[0] == '-'
  }

  /** An argument the loop takes as the path. */
  predicate IsPathArg(a: string) { !LooksLikeOption(a) }

  const Initial := ScanState(Flags(false, false, false, false), None)

  /** One iteration of the argument loop. */
  function Step(st: ScanState, a: string): ScanResult {
    if IsHelp(a) then Scanned(st.(flags := st.flags.(help := true)))
    else if IsEndline(a) then Scanned(st.(flags := st.flags.(endline := true)))
    else if IsNumber(a) then Scanned(st.(flags := st.flags.(number := true)))
    else if IsCompressed(a) then Scanned(st.(flags := st.flags.(compressed := true)))
    else if LooksLikeOption(a) then Rejected(UnrecognizedOption(a))
    else if st.path.Some? then Rejected(SecondPath(a))
    else Scanned(st.(path := Some(a)))
  }

  /** The loop over `rest`, left to right, stopping at the first error. */
  function Scan(st: ScanState, rest: seq<string>): ScanResult
    decreases |rest|
  {
    if |rest| == 0 then Scanned(st)
    else match Step(st, rest[0])
      case Rejected(e) => Rejected(e)
      case Scanned(st') => Scan(st', rest[1..])
  }

  /** Continue a walk that has not failed yet. */
  function ScanThen(r: ScanResult, rest: seq<string>): ScanResult {
    match r
    case Rejected(e) => Rejected(e)
    case Scanned(st) => Scan(st, rest)
  }

  /** The decision main.rs takes from its arguments (program name first). */
  function Classify(args: seq<string>): Outcome {
    if |args| <= 1 then Usage
    else match Scan(Initial, args[1..])
      case Rejected(e) => BadArgument(e)
      case Scanned(st) =>
        if st.flags.help then Help
        else if st.path.None? then MissingPath
        else Proceed(Config(st.flags.endline, st.flags.number, st.flags.compressed), st.path.value)
  }

  /** The argument loop and the two checks after it. */
  method ParseArguments(args: seq<string>) returns (o: Outcome)
    ensures o == Classify(args)
  {
    if |args| <= 1 {
      return Usage;
    }
    var help, endline, number, compressed := false, false, false, false;
    var path: Option<string> := None;
    var i := 1;
    while i < |args|
      invariant 1 <= i <= |args|
      invariant Scan(Initial, args[1..])
             == Scan(ScanState(Flags(help, endline, number, compressed), path), args[i..])
      decreases |args| - i
    {
      var arg := args[i];
      assert args[i..][1..] == args[i + 1..];
      if IsHelp(arg) {
        help := true;
      } else if IsEndline(arg) {
        endline := true;
      } else if IsNumber(arg) {
        number := true;
      } else if IsCompressed(arg) {
        compressed := true;
      } else {
        if LooksLikeOption(arg) {
          return BadArgument(UnrecognizedOption(arg));
        }
        if path.Some? {
          return BadArgument(SecondPath(arg));
        }
        path := Some(arg);
      }
      i := i + 1;
    }
    if help {
      return Help;
    }
    if path.None? {
      return MissingPath;
    }
    o := Proceed(Config(endline, number, compressed), path.value);
  }

  // ---------------------------------------------------------------------
  // What the walk accepts and what it records

  /**
   * Every option is recognised, no two arguments are paths, and none is a
   * path when one is already held.
   */
  ghost predicate Acceptable(rest: seq<string>, hasPath: bool) {
    && (forall i :: 0 <= i < |rest| && LooksLikeOption(rest[i]) ==> Recognized(rest[i]))
    && (forall i, j :: 0 <= i < j < |rest| && IsPathArg(rest[i]) ==> !IsPathArg(rest[j]))
    && (hasPath ==> forall i :: 0 <= i < |rest| ==> !IsPathArg(rest[i]))
  }

  lemma {:induction false} ScanAcceptsIff(st: ScanState, rest: seq<string>)
    ensures Scan(st, rest).Scanned? <==> Acceptable(rest, st.path.Some?)
    decreases |rest|
  {
    if |rest| > 0 {
      var a := rest[0];
      var tail := rest[1..];
      assert forall i :: 0 < i < |rest| ==> rest[i] == tail[i - 1];
      match Step(st, a)
      case Rejected(e) =>
        if LooksLikeOption(a) {
          assert !Recognized(a);
        } else {
          assert st.path.Some? && IsPathArg(rest[0]);
        }
      case Scanned(st') =>
        ScanAcceptsIff(st', tail);
        if Recognized(a) {
          assert st'.path == st.path;
        } else {
          assert IsPathArg(a) && st.path.None? && st'.path.Some?;
          if Acceptable(rest, st.path.Some?) {
            assert forall j :: 0 < j < |rest| ==> !IsPathArg(rest[j]);
          }
        }
    }
  }

  /** The four switches, to speak of any one of them. */
  datatype Switch = HelpSwitch | EndlineSwitch | NumberSwitch | CompressedSwitch

  predicate Spells(w: Switch, a: string) {
    match w
    case HelpSwitch => IsHelp(a)
    case EndlineSwitch => IsEndline(a)
    case NumberSwitch => IsNumber(a)
    case CompressedSwitch => IsCompressed(a)
  }

  predicate IsOn(f: Flags, w: Switch) {
    match w
    case HelpSwitch => f.help
    case EndlineSwitch => f.endline
    case NumberSwitch => f.number
    case CompressedSwitch => f.compressed
  }

  /** On success, a switch is on iff it started on or one of its spellings occurs. */
  lemma {:induction false} ScanFlag(st: ScanState, rest: seq<string>, w: Switch)
    requires Scan(st, rest).Scanned?
    ensures IsOn(Scan(st, rest).state.flags, w) <==>
      IsOn(st.flags, w) || exists i :: 0 <= i < |rest| && Spells(w, rest[i])
    decreases |rest|
  {
    if |rest| > 0 {
      var tail := rest[1..];
      var st' := Step(st, rest[0]).state;
      ScanFlag(st', tail, w);
      assert IsOn(st'.flags, w) <==> IsOn(st.flags, w) || Spells(w, rest[0]);
      if exists i :: 0 <= i < |tail| && Spells(w, tail[i]) {
        var i :| 0 <= i < |tail| && Spells(w, tail[i]);
        assert rest[i + 1] == tail[i];
      }
      if exists i :: 0 < i < |rest| && Spells(w, rest[i]) {
        var i :| 0 < i < |rest| && Spells(w, rest[i]);
        assert rest[i] == tail[i - 1];
      }
    }
  }

  /** On success from no path, a path is held iff some argument is one, and it is one of them. */
  lemma {:induction false} ScanPath(st: ScanState, rest: seq<string>)
    requires Scan(st, rest).Scanned?
    ensures var p := Scan(st, rest).state.path;
      && (p.Some? <==> st.path.Some? || exists i :: 0 <= i < |rest| && IsPathArg(rest[i]))
      && (p.Some? && st.path.None? ==> IsPathArg(p.value) && p.value in rest)
      && (st.path.Some? ==> p == st.path)
    decreases |rest|
  {
    if |rest| > 0 {
      var tail := rest[1..];
      assert forall i :: 0 < i < |rest| ==> rest[i] == tail[i - 1];
      var st' := Step(st, rest[0]).state;
      ScanPath(st', tail);
      var p := Scan(st, rest).state.path;
      if p.Some? && st.path.None? && st'.path.None? {
        var i :| 0 <= i < |tail| && IsPathArg(tail[i]);
        assert IsPathArg(rest[i + 1]);
      }
    }
  }

  // ---------------------------------------------------------------------
  // The decision

  lemma UsageIff(args: seq<string>)
    ensures Classify(args) == Usage <==> |args| <= 1
  {
  }

  /**
   * An unrecognised option anywhere makes the arguments bad, even when a
   * help switch is also present: help is looked at only after the walk.
   */
  lemma UnrecognizedOptionRejects(args: seq<string>, k: nat)
    requires 1 <= k < |args|
    requires LooksLikeOption(args[k]) && !Recognized(args[k])
    ensures Classify(args).BadArgument?
  {
    var rest := args[1..];
    assert rest[k - 1] == args[k];
    ScanAcceptsIff(Initial, rest);
  }

  /** Two path arguments make the arguments bad. */
  lemma TwoPathsReject(args: seq<string>, j: nat, k: nat)
    requires 1 <= j < k < |args|
    requires IsPathArg(args[j]) && IsPathArg(args[k])
    ensures Classify(args).BadArgument?
  {
    var rest := args[1..];
    assert rest[j - 1] == args[j] && rest[k - 1] == args[k];
    ScanAcceptsIff(Initial, rest);
  }

  /** Bad arguments are exactly an unrecognised option or a second path. */
  lemma BadArgumentIff(args: seq<string>)
    ensures Classify(args).BadArgument? <==> |args| > 1 && !Acceptable(args[1..], false)
  {
    if |args| > 1 {
      ScanAcceptsIff(Initial, args[1..]);
    }
  }

  /** `ScanFlag` phrased over the whole argument list. */
  lemma SwitchGiven(args: seq<string>, w: Switch)
    requires |args| > 1 && Scan(Initial, args[1..]).Scanned?
    ensures IsOn(Scan(Initial, args[1..]).state.flags, w) <==>
      exists k :: 1 <= k < |args| && Spells(w, args[k])
  {
    var rest := args[1..];
    ScanFlag(Initial, rest, w);
    if exists k :: 1 <= k < |args| && Spells(w, args[k]) {
      var k :| 1 <= k < |args| && Spells(w, args[k]);
      assert rest[k - 1] == args[k];
    }
    if exists i :: 0 <= i < |rest| && Spells(w, rest[i]) {
      var i :| 0 <= i < |rest| && Spells(w, rest[i]);
      assert args[i + 1] == rest[i];
    }
  }

  /** `ScanPath` phrased over the whole argument list. */
  lemma PathGiven(args: seq<string>)
    requires |args| > 1 && Scan(Initial, args[1..]).Scanned?
    ensures var p := Scan(Initial, args[1..]).state.path;
      && (p.Some? <==> exists k :: 1 <= k < |args| && IsPathArg(args[k]))
      && (p.Some? ==> IsPathArg(p.value) && p.value in args[1..])
  {
    var rest := args[1..];
    ScanPath(Initial, rest);
    if exists k :: 1 <= k < |args| && IsPathArg(args[k]) {
      var k :| 1 <= k < |args| && IsPathArg(args[k]);
      assert rest[k - 1] == args[k];
    }
    if exists i :: 0 <= i < |rest| && IsPathArg(rest[i]) {
      var i :| 0 <= i < |rest| && IsPathArg(rest[i]);
      assert args[i + 1] == rest[i];
    }
  }

  /** Help is shown iff the arguments are acceptable and a help switch occurs. */
  lemma HelpIff(args: seq<string>)
    ensures Classify(args) == Help <==>
      |args| > 1 && Acceptable(args[1..], false) && exists k :: 1 <= k < |args| && IsHelp(args[k])
  {
    if |args| > 1 {
      ScanAcceptsIff(Initial, args[1..]);
      if Scan(Initial, args[1..]).Scanned? {
        SwitchGiven(args, HelpSwitch);
      }
    }
  }

  /** The path is missing iff the arguments are acceptable, without help and without a path. */
  lemma MissingPathIff(args: seq<string>)
    ensures Classify(args) == MissingPath <==>
      && |args| > 1 && Acceptable(args[1..], false)
      && (forall k :: 1 <= k < |args| ==> !IsHelp(args[k]) && !IsPathArg(args[k]))
  {
    if |args| > 1 {
      ScanAcceptsIff(Initial, args[1..]);
      if Scan(Initial, args[1..]).Scanned? {
        SwitchGiven(args, HelpSwitch);
        PathGiven(args);
      }
    }
  }

  /**
   * The transform runs with each switch on iff one of its spellings was
   * given, on a path that is one of the arguments and looks like no option.
   */
  lemma ProceedConfig(args: seq<string>)
    requires Classify(args).Proceed?
    ensures var o := Classify(args);
      && (o.config.endline <==> exists k :: 1 <= k < |args| && IsEndline(args[k]))
      && (o.config.number <==> exists k :: 1 <= k < |args| && IsNumber(args[k]))
      && (o.config.compressed <==> exists k :: 1 <= k < |args| && IsCompressed(args[k]))
      && IsPathArg(o.path) && o.path in args[1..]
      && (forall k :: 1 <= k < |args| ==> !IsHelp(args[k]))
  {
    SwitchGiven(args, HelpSwitch);
    SwitchGiven(args, EndlineSwitch);
    SwitchGiven(args, NumberSwitch);
    SwitchGiven(args, CompressedSwitch);
    PathGiven(args);
  }

  // ---------------------------------------------------------------------
  // Order independence and idempotence of the switches

  lemma {:induction false} ScanAppend(st: ScanState, xs: seq<string>, ys: seq<string>)
    ensures Scan(st, xs + ys) == ScanThen(Scan(st, xs), ys)
    decreases |xs|
  {
    if |xs| == 0 {
      assert xs + ys == ys;
    } else {
      assert (xs + ys)[0] == xs[0];
      assert (xs + ys)[1..] == xs[1..] + ys;
      if Step(st, xs[0]).Scanned? {
        ScanAppend(Step(st, xs[0]).state, xs[1..], ys);
      }
    }
  }

  /** A switch commutes with the argument after it. */
  lemma SwitchCommutes(st: ScanState, f: string, a: string)
    requires Recognized(f)
    ensures Scan(st, [f, a]) == Scan(st, [a, f])
  {
  }

  /** A switch repeated is a switch given once. */
  lemma SwitchIdempotent(st: ScanState, f: string)
    requires Recognized(f)
    ensures Scan(st, [f, f]) == Scan(st, [f])
  {
  }

  /** Exchanging a switch with its right neighbour changes nothing. */
  lemma SwapSwitch(args: seq<string>, k: nat)
    requires 1 <= k && k + 1 < |args|
    requires Recognized(args[k])
    ensures Classify(args[..k] + [args[k + 1], args[k]] + args[k + 2..]) == Classify(args)
  {
    var swapped := args[..k] + [args[k + 1], args[k]] + args[k + 2..];
    var pre, post := args[1..k], args[k + 2..];
    assert args[1..] == pre + [args[k], args[k + 1]] + post;
    assert swapped[1..] == pre + [args[k + 1], args[k]] + post;
    ScanAppend(Initial, pre + [args[k], args[k + 1]], post);
    ScanAppend(Initial, pre + [args[k + 1], args[k]], post);
    ScanAppend(Initial, pre, [args[k], args[k + 1]]);
    ScanAppend(Initial, pre, [args[k + 1], args[k]]);
    if Scan(Initial, pre).Scanned? {
      SwitchCommutes(Scan(Initial, pre).state, args[k], args[k + 1]);
    }
  }

  /** Giving a switch a second time, right after the first, changes nothing. */
  lemma RepeatSwitch(args: seq<string>, k: nat)
    requires 1 <= k < |args|
    requires Recognized(args[k])
    ensures Classify(args[..k + 1] + [args[k]] + args[k + 1..]) == Classify(args)
  {
    var repeated := args[..k + 1] + [args[k]] + args[k + 1..];
    var pre, post := args[1..k], args[k + 1..];
    assert args[1..] == pre + [args[k]] + post;
    assert repeated[1..] == pre + [args[k], args[k]] + post;
    ScanAppend(Initial, pre + [args[k]], post);
    ScanAppend(Initial, pre + [args[k], args[k]], post);
    ScanAppend(Initial, pre, [args[k]]);
    ScanAppend(Initial, pre, [args[k], args[k]]);
    if Scan(Initial, pre).Scanned? {
      SwitchIdempotent(Scan(Initial, pre).state, args[k]);
    }
  }
}
