/**
 * The print loop of katz (src/main.rs, lines 91-125).
 *
 * The file arrives already split into lines: each item is either a line's
 * text or the error the reader reported for it. The loop enumerates the
 * items with their 0-based index and keeps a blank-line counter `blc`:
 * an empty line increments it, and when compression is on and `blc` has
 * reached 2 the line is skipped and `blc` goes back to 0. A non-empty line
 * leaves `blc` alone. Every other line is written with an optional
 * "index " prefix and a "$\n" or "\n" ending; the first read error stops
 * the loop.
 *
 * `Run` is the loop as a fold over a prefix of the lines, `PrintLines` the
 * loop itself, and `Reference` an independent description: in compressed
 * mode the i-th empty line of the file (counting from 1) is dropped iff i
 * is even.
 */
module LineStream {

  import opened Arguments
  import Decimal

  /** One item of the line reader. */
  datatype LineRead = Text(text: string) | ReadError

  // ---------------------------------------------------------------------
  // Formatting of one emitted line

  function Prefix(cfg: Config, index: nat): string {
    if cfg.number then Decimal.DecimalString(index) + " " else ""
  }

  function Terminator(cfg: Config): string {
    if cfg.endline then "$\n" else "\n"
  }

  /** What the loop writes for line `index` with text `s`. */
  function Render(cfg: Config, index: nat, s: string): string {
    Prefix(cfg, index) + s + Terminator(cfg)
  }

  /**
   * An emitted line is its prefix, the text unchanged and its ending; with
   * numbering on the prefix is the index, read back from the digits, and a
   * space; with numbering off there is no prefix.
   */
  lemma RenderParts(cfg: Config, index: nat, s: string)
    ensures var r := Render(cfg, index, s); var p := |Prefix(cfg, index)|;
      && |r| == p + |s| + |Terminator(cfg)|
      && r[p..p + |s|] == s
      && r[p + |s|..] == Terminator(cfg)
      && (cfg.endline ==> r[|r| - 2..] == "$\n")
      && (!cfg.endline ==> r[|r| - 1..] == "\n")
      && (!cfg.number ==> p == 0)
      && (cfg.number ==>
            && Decimal.LeadingNumber(r) == index
            && r[Decimal.DigitRun(r)] == ' '
            && p == Decimal.DigitRun(r) + 1)
  {
    var r := Render(cfg, index, s);
    var p := Prefix(cfg, index);
    assert r[|p|..|p| + |s|] == s;
    assert r[|p| + |s|..] == Terminator(cfg);
    if cfg.number {
      var d := Decimal.DecimalString(index);
      var rest := " " + s + Terminator(cfg);
      assert r == d + rest;
      Decimal.LeadingNumberOf(index, rest);
      assert r[|d|] == rest[0];
    }
  }

  // ---------------------------------------------------------------------
  // The loop as a fold

  /** The loop's variables after some lines: what was written, `blc`, and whether a read failed. */
  datatype Progress = Progress(out: seq<string>, blc: nat, failed: bool)

  /**
   * One iteration on line `index`. `blc` is unbounded here; in main.rs it is
   * a `u8` that, with compression off, is never reset, so the 256th empty
   * line there would overflow it.
   */
  function Advance(cfg: Config, p: Progress, index: nat, line: LineRead): Progress {
    if p.failed then p
    else match line
      case ReadError => p.(failed := true)
      case Text(s) =>
        var b := if s == "" then p.blc + 1 else p.blc;
        if b >= 2 && cfg.compressed then Progress(p.out, 0, false)
        else Progress(p.out + [Render(cfg, index, s)], b, false)
  }

  const Start := Progress([], 0, false)

  /** The state after the first `n` lines. */
  function Run(cfg: Config, lines: seq<LineRead>, n: nat): Progress
    requires n <= |lines|
  {
    if n == 0 then Start else Advance(cfg, Run(cfg, lines, n - 1), n - 1, lines[n - 1])
  }

  /** What the loop leaves behind: the lines written and whether it stopped on a read error. */
  datatype Printout = Printout(out: seq<string>, readFailed: bool)

  function Transform(cfg: Config, lines: seq<LineRead>): Printout {
    var p := Run(cfg, lines, |lines|);
    Printout(p.out, p.failed)
  }

  /** Once a read has failed nothing more happens. */
  lemma {:induction false} FailureSticks(cfg: Config, lines: seq<LineRead>, n: nat, m: nat)
    requires n <= m <= |lines|
    requires Run(cfg, lines, n).failed
    ensures Run(cfg, lines, m) == Run(cfg, lines, n)
    decreases m - n
  {
    if n < m {
      FailureSticks(cfg, lines, n, m - 1);
    }
  }

  /** The print loop. */
  method PrintLines(cfg: Config, lines: seq<LineRead>) returns (out: seq<string>, failed: bool)
    ensures Printout(out, failed) == Transform(cfg, lines)
  {
    out := [];
    var blc: nat := 0;
    var index := 0;
    while index < |lines|
      invariant index <= |lines|
      invariant Run(cfg, lines, index) == Progress(out, blc, false)
      decreases |lines| - index
    {
      match lines[index]
      case ReadError =>
        FailureSticks(cfg, lines, index + 1, |lines|);
        return out, true;
      case Text(cl) =>
        if cl == "" {
          blc := blc + 1;
        }
        if blc >= 2 && cfg.compressed {
          blc := 0;
          index := index + 1;
          continue;
        }
        var written := "";
        if cfg.number {
          written := Decimal.DecimalString(index) + " ";
        }
        written := written + cl;
        if cfg.endline {
          written := written + "$\n";
        } else {
          written := written + "\n";
        }
        out := out + [written];
        index := index + 1;
    }
    failed := false;
  }

  // ---------------------------------------------------------------------
  // An independent description of the output

  /** Number of empty lines among the first `n`. */
  function EmptyCount(lines: seq<LineRead>, n: nat): nat
    requires n <= |lines|
  {
    if n == 0 then 0 else EmptyCount(lines, n - 1) + (if lines[n - 1] == Text("") then 1 else 0)
  }

  predicate NoReadError(lines: seq<LineRead>, n: nat)
    requires n <= |lines|
  {
    forall i :: 0 <= i < n ==> lines[i].Text?
  }

  /** Line `i` is suppressed: compression is on and it is an even-numbered empty line. */
  predicate Dropped(cfg: Config, lines: seq<LineRead>, i: nat)
    requires i < |lines|
  {
    cfg.compressed && lines[i] == Text("") && EmptyCount(lines, i + 1) % 2 == 0
  }

  /** The indices, in increasing order, of the lines among the first `n` that are written. */
  function Kept(cfg: Config, lines: seq<LineRead>, n: nat): seq<nat>
    requires n <= |lines|
  {
    if n == 0 then []
    else Kept(cfg, lines, n - 1) + (if Dropped(cfg, lines, n - 1) then [] else [n - 1])
  }

  /** The written text, line by line from the kept indices. */
  function Reference(cfg: Config, lines: seq<LineRead>, n: nat): seq<string>
    requires n <= |lines| && NoReadError(lines, n)
  {
    if n == 0 then []
    else Reference(cfg, lines, n - 1)
         + (if Dropped(cfg, lines, n - 1) then [] else [Render(cfg, n - 1, lines[n - 1].text)])
  }

  /**
   * Without a read error the loop writes exactly the reference output, and
   * `blc` is the parity of the empty lines seen in compressed mode (so never
   * above 1 at the head of the loop) and their count otherwise.
   */
  lemma {:induction false} RunIsReference(cfg: Config, lines: seq<LineRead>, n: nat)
    requires n <= |lines| && NoReadError(lines, n)
    ensures Run(cfg, lines, n) == Progress(
      Reference(cfg, lines, n),
      if cfg.compressed then EmptyCount(lines, n) % 2 else EmptyCount(lines, n),
      false)
  {
    if n > 0 {
      RunIsReference(cfg, lines, n - 1);
    }
  }

  /** In compressed mode `blc` is 0 or 1 at the head of every iteration. */
  lemma CounterStaysSmall(cfg: Config, lines: seq<LineRead>, n: nat)
    requires n <= |lines| && NoReadError(lines, n) && cfg.compressed
    ensures Run(cfg, lines, n).blc <= 1
  {
    RunIsReference(cfg, lines, n);
  }

  /** A file read without error is written as the reference says. */
  lemma TransformCompletes(cfg: Config, lines: seq<LineRead>)
    requires NoReadError(lines, |lines|)
    ensures Transform(cfg, lines) == Printout(Reference(cfg, lines, |lines|), false)
  {
    RunIsReference(cfg, lines, |lines|);
  }

  /**
   * A read error on line `k` ends the loop in failure; what was written is
   * exactly what lines 0..k-1 produce, and nothing of line `k` or later.
   */
  lemma ReadErrorStops(cfg: Config, lines: seq<LineRead>, k: nat)
    requires k < |lines| && lines[k] == ReadError && NoReadError(lines, k)
    ensures Transform(cfg, lines) == Printout(Reference(cfg, lines, k), true)
  {
    RunIsReference(cfg, lines, k);
    FailureSticks(cfg, lines, k + 1, |lines|);
  }

  lemma EmptyFile(cfg: Config)
    ensures Transform(cfg, []) == Printout([], false)
  {
  }

  // ---------------------------------------------------------------------
  // Properties of the reference output

  /** The reference writes the kept lines, each rendered with its original index. */
  lemma {:induction false} ReferenceFromKept(cfg: Config, lines: seq<LineRead>, n: nat)
    requires n <= |lines| && NoReadError(lines, n)
    ensures var r, k := Reference(cfg, lines, n), Kept(cfg, lines, n);
      && |r| == |k|
      && (forall j :: 0 <= j < |k| ==> k[j] < n && r[j] == Render(cfg, k[j], lines[k[j]].text))
  {
    if n > 0 {
      ReferenceFromKept(cfg, lines, n - 1);
    }
  }

  /**
   * The kept indices increase strictly, and a line is kept iff it is not
   * dropped; in particular a non-empty line is always kept.
   */
  lemma {:induction false} KeptIndices(cfg: Config, lines: seq<LineRead>, n: nat)
    requires n <= |lines|
    ensures var k := Kept(cfg, lines, n);
      && (forall j :: 0 <= j < |k| ==> k[j] < n)
      && (forall i, j :: 0 <= i < j < |k| ==> k[i] < k[j])
      && (forall i :: 0 <= i < n ==> (i in k <==> !Dropped(cfg, lines, i)))
      && (forall i :: 0 <= i < n && lines[i] != Text("") ==> i in k)
  {
    if n > 0 {
      KeptIndices(cfg, lines, n - 1);
    }
  }

  /**
   * With numbering on, every written line, including those written before a
   * read error, starts with the decimal text of the original 0-based index of
   * its input line followed by a space, so suppressed lines do not shift the
   * numbers.
   */
  lemma NumberedWithOriginalIndex(cfg: Config, lines: seq<LineRead>, j: nat)
    requires cfg.number
    requires j < |Transform(cfg, lines).out|
    ensures var k := Kept(cfg, lines, FirstReadError(lines));
      var r := Transform(cfg, lines).out[j];
      && j < |k|
      && var d := Decimal.DecimalString(k[j]);
      && |r| > |d|
      && r[..|d| + 1] == d + " "
      && Decimal.LeadingNumber(r) == k[j]
  {
    var n := FirstReadError(lines);
    if n == |lines| {
      TransformCompletes(cfg, lines);
    } else {
      ReadErrorStops(cfg, lines, n);
    }
    ReferenceFromKept(cfg, lines, n);
    var k := Kept(cfg, lines, n);
    var s := lines[k[j]].text;
    RenderParts(cfg, k[j], s);
    var d := Decimal.DecimalString(k[j]);
    var r := Render(cfg, k[j], s);
    assert r == (d + " ") + (s + Terminator(cfg));
    assert r[..|d| + 1] == d + " ";
  }

  /** Every written line ends with "$\n" when endline is set, and with "\n" otherwise. */
  lemma EveryLineTerminated(cfg: Config, lines: seq<LineRead>, j: nat)
    requires j < |Transform(cfg, lines).out|
    ensures var r := Transform(cfg, lines).out[j];
      && (cfg.endline ==> |r| >= 2 && r[|r| - 2..] == "$\n")
      && (!cfg.endline ==> |r| >= 1 && r[|r| - 1..] == "\n")
  {
    var k := FirstReadError(lines);
    if k == |lines| {
      assert NoReadError(lines, |lines|);
      TransformCompletes(cfg, lines);
    } else {
      ReadErrorStops(cfg, lines, k);
    }
    ReferenceFromKept(cfg, lines, k);
    var kk := Kept(cfg, lines, k);
    RenderParts(cfg, kk[j], lines[kk[j]].text);
  }

  /** Index of the first read error, or the number of lines if there is none. */
  function FirstReadError(lines: seq<LineRead>): (k: nat)
    ensures k <= |lines| && NoReadError(lines, k)
    ensures k < |lines| ==> lines[k] == ReadError
    decreases |lines|
  {
    if |lines| == 0 then 0
    else if lines[0] == ReadError then 0
    else 1 + FirstReadError(lines[1..])
  }

  /**
   * With compression off every line is written once, in order, its text
   * unchanged: as many lines out as in.
   */
  lemma Uncompressed(cfg: Config, lines: seq<LineRead>)
    requires !cfg.compressed && NoReadError(lines, |lines|)
    ensures var out := Transform(cfg, lines).out;
      && !Transform(cfg, lines).readFailed
      && |out| == |lines|
      && forall i :: 0 <= i < |lines| ==> out[i] == Render(cfg, i, lines[i].text)
  {
    TransformCompletes(cfg, lines);
    ReferenceFromKept(cfg, lines, |lines|);
    KeptIndices(cfg, lines, |lines|);
    KeptAllWhenUncompressed(cfg, lines, |lines|);
  }

  lemma {:induction false} KeptAllWhenUncompressed(cfg: Config, lines: seq<LineRead>, n: nat)
    requires !cfg.compressed && n <= |lines|
    ensures Kept(cfg, lines, n) == seq(n, i => i)
  {
    if n > 0 {
      KeptAllWhenUncompressed(cfg, lines, n - 1);
    }
  }

  /** Number of kept lines that are empty. */
  function KeptEmpty(cfg: Config, lines: seq<LineRead>, n: nat): nat
    requires n <= |lines|
  {
    if n == 0 then 0
    else KeptEmpty(cfg, lines, n - 1)
         + (if lines[n - 1] == Text("") && !Dropped(cfg, lines, n - 1) then 1 else 0)
  }

  /**
   * In compressed mode exactly floor(E/2) of the first n lines' E empty
   * lines are dropped: floor(E/2) fewer indices are kept than there are
   * lines, and ceil(E/2) of the kept ones are empty lines. With compression
   * off no index is dropped.
   */
  lemma {:induction false} KeptCount(cfg: Config, lines: seq<LineRead>, n: nat)
    requires n <= |lines|
    ensures var e := EmptyCount(lines, n); var dropped := if cfg.compressed then e / 2 else 0;
      && e <= n
      && |Kept(cfg, lines, n)| == n - dropped
      && KeptEmpty(cfg, lines, n) == e - dropped
  {
    if n > 0 {
      KeptCount(cfg, lines, n - 1);
    }
  }

  /**
   * A file read without error is written shorter by floor(E/2) lines in
   * compressed mode, where E is its number of empty lines, and at full length
   * otherwise.
   */
  lemma OutputLength(cfg: Config, lines: seq<LineRead>)
    requires NoReadError(lines, |lines|)
    ensures var e := EmptyCount(lines, |lines|);
      |Transform(cfg, lines).out| == |lines| - (if cfg.compressed then e / 2 else 0)
  {
    TransformCompletes(cfg, lines);
    ReferenceFromKept(cfg, lines, |lines|);
    KeptCount(cfg, lines, |lines|);
  }

  // ---------------------------------------------------------------------
  // Pinned behaviour on small inputs

  /** Of two blank lines in a row, with compression, the second is dropped. */
  lemma CompressedExample()
    ensures Transform(Config(false, false, true), [Text("a"), Text(""), Text(""), Text("b")]).out
         == ["a\n", "\n", "b\n"]
  {
    var cfg := Config(false, false, true);
    var lines := [Text("a"), Text(""), Text(""), Text("b")];
    assert Render(cfg, 0, "a") == "a\n";
    assert Render(cfg, 1, "") == "\n";
    assert Render(cfg, 3, "b") == "b\n";
    assert Run(cfg, lines, 1).out == ["a\n"];
    assert Run(cfg, lines, 2).out == ["a\n", "\n"];
    assert Run(cfg, lines, 3).out == ["a\n", "\n"];
    assert Run(cfg, lines, 4).out == ["a\n", "\n", "b\n"];
  }

  /** Numbered lines carry their index and a space. */
  lemma NumberedExample()
    ensures Transform(Config(false, true, false), [Text("x"), Text("y")]).out == ["0 x\n", "1 y\n"]
  {
    var cfg := Config(false, true, false);
    var lines := [Text("x"), Text("y")];
    assert Decimal.DecimalString(0) == "0" && Decimal.DecimalString(1) == "1";
    assert Render(cfg, 0, "x") == "0 x\n";
    assert Render(cfg, 1, "y") == "1 y\n";
    assert Run(cfg, lines, 1).out == ["0 x\n"];
  }

  lemma EndlineExample()
    ensures Transform(Config(true, false, false), [Text("x")]).out == ["x$\n"]
  {
    var lines := [Text("x")];
    assert Render(Config(true, false, false), 0, "x") == "x$\n";
    assert Run(Config(true, false, false), lines, 1).out == ["x$\n"];
  }

  /**
   * Compression does not keep the output free of adjacent blank lines:
   * three empty lines in a row give two.
   */
  lemma ThreeBlanksGiveTwo()
    ensures Transform(Config(false, false, true), [Text(""), Text(""), Text("")]).out == ["\n", "\n"]
  {
    var cfg := Config(false, false, true);
    var lines := [Text(""), Text(""), Text("")];
    assert Render(cfg, 0, "") == "\n";
    assert Render(cfg, 2, "") == "\n";
    assert Run(cfg, lines, 1) == Progress(["\n"], 1, false);
    assert Run(cfg, lines, 2) == Progress(["\n"], 0, false);
    assert Run(cfg, lines, 3) == Progress(["\n", "\n"], 1, false);
  }

  /**
   * A non-empty line does not reset the counter: an empty line, some text
   * and then an empty line drop the second empty line, across the text.
   */
  lemma CounterSurvivesText()
    ensures Transform(Config(false, false, true), [Text(""), Text("t"), Text(""), Text("")]).out
         == ["\n", "t\n", "\n"]
  {
    var cfg := Config(false, false, true);
    var lines := [Text(""), Text("t"), Text(""), Text("")];
    assert Render(cfg, 0, "") == "\n";
    assert Render(cfg, 1, "t") == "t\n";
    assert Render(cfg, 3, "") == "\n";
    assert Run(cfg, lines, 1) == Progress(["\n"], 1, false);
    assert Run(cfg, lines, 2) == Progress(["\n", "t\n"], 1, false);
    assert Run(cfg, lines, 3) == Progress(["\n", "t\n"], 0, false);
    assert Run(cfg, lines, 4) == Progress(["\n", "t\n", "\n"], 1, false);
  }
}
