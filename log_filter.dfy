/**
 * `dashboard/flask/utils/log-filter.py`: copies the lines of the raw log
 * whose first comma-separated field is an ISO time on or after 27 June
 * 2025, verbatim and in order; every other line is skipped.
 */
module LogFilter {
  import opened Wrappers
  import opened Text
  import opened Clock

  /** The cutoff date; only the date part of a line's time is compared with it. */
  const CutoffYear := 2025
  const CutoffMonth := 6
  const CutoffDay := 27

  /** `timestamp.date() >= cutoff.date()`. */
  predicate OnOrAfterCutoff(t: DateTime) {
    t.year > CutoffYear
    || (t.year == CutoffYear && (t.month > CutoffMonth || (t.month == CutoffMonth && t.day >= CutoffDay)))
  }

  /** `line.split(',')[0]`. */
  function FirstField(line: string): string {
    Split(line, ',')[0]
  }

  /**
   * The line is written: `fromIso` is `datetime.fromisoformat`, `None` when it
   * raises, and any exception only skips the line.
   */
  predicate Kept(line: string, fromIso: string -> Option<DateTime>) {
    var t := fromIso(FirstField(line));
    t.Some? && OnOrAfterCutoff(t.value)
  }

  /** The lines written to the output file, for the lines read so far. */
  function Filtered(lines: seq<string>, fromIso: string -> Option<DateTime>): seq<string>
    decreases |lines|
  {
    if lines == [] then []
    else
      var last := lines[|lines| - 1];
      Filtered(lines[..|lines| - 1], fromIso) + (if Kept(last, fromIso) then [last] else [])
  }

  /** The script's single loop; `infile` holds the input lines with their line endings. */
  method FilterLog(infile: seq<string>, fromIso: string -> Option<DateTime>) returns (outfile: seq<string>)
    ensures outfile == Filtered(infile, fromIso)
  {
    outfile := [];
    var i := 0;
    while i < |infile|
      invariant 0 <= i <= |infile|
      invariant outfile == Filtered(infile[..i], fromIso)
    {
      var line := infile[i];
      var timestamp := fromIso(Split(line, ',')[0]);
      if timestamp.Some? && OnOrAfterCutoff(timestamp.value) {
        outfile := outfile + [line];
      }
      assert infile[..i + 1][..i] == infile[..i];
      i := i + 1;
    }
    assert infile[..i] == infile;
  }

  /** Filtering a split input filters each part. */
  lemma {:induction false} FilteredAppend(a: seq<string>, b: seq<string>, fromIso: string -> Option<DateTime>)
    ensures Filtered(a + b, fromIso) == Filtered(a, fromIso) + Filtered(b, fromIso)
    decreases |b|
  {
    if b == [] {
      assert a + b == a;
    } else {
      var b' := b[..|b| - 1];
      FilteredAppend(a, b', fromIso);
      assert (a + b)[..|a + b| - 1] == a + b';
      assert (a + b)[|a + b| - 1] == b[|b| - 1];
    }
  }

  /** A line that does not parse, such as the header, is skipped and the rest still goes through. */
  lemma UnparsedLineSkipped(a: seq<string>, line: string, b: seq<string>, fromIso: string -> Option<DateTime>)
    requires fromIso(FirstField(line)).None?
    ensures Filtered(a + [line] + b, fromIso) == Filtered(a + b, fromIso)
  {
    FilteredAppend(a + [line], b, fromIso);
    FilteredAppend(a, [line], fromIso);
    FilteredAppend(a, b, fromIso);
    assert [line][..0] == [];
  }

  /** Indices into `lines`, strictly increasing, picking out `out` element by element. */
  predicate Embeds(out: seq<string>, lines: seq<string>, idx: seq<nat>) {
    && |idx| == |out|
    && (forall k :: 0 <= k < |idx| ==> idx[k] < |lines| && lines[idx[k]] == out[k])
    && (forall k, l :: 0 <= k < l < |idx| ==> idx[k] < idx[l])
  }

  /** An embedding survives a further input line, which may also extend the output. */
  lemma EmbedsGrow(out: seq<string>, lines: seq<string>, idx: seq<nat>, line: string)
    requires Embeds(out, lines, idx)
    ensures Embeds(out, lines + [line], idx)
    ensures Embeds(out + [line], lines + [line], idx + [|lines|])
  {
    assert forall k :: 0 <= k < |idx| ==> (lines + [line])[idx[k]] == lines[idx[k]];
  }

  /**
   * The output is a subsequence of the input: exactly the kept lines, each
   * verbatim, in their input order.
   */
  lemma {:induction false} FilteredSubsequence(lines: seq<string>, fromIso: string -> Option<DateTime>)
    returns (idx: seq<nat>)
    ensures Embeds(Filtered(lines, fromIso), lines, idx)
    ensures forall k :: 0 <= k < |idx| ==> Kept(lines[idx[k]], fromIso)
    ensures forall i :: 0 <= i < |lines| && Kept(lines[i], fromIso) ==> i in idx
    decreases |lines|
  {
    if lines == [] {
      return [];
    }
    var n := |lines| - 1;
    var init := lines[..n];
    var prev := FilteredSubsequence(init, fromIso);
    assert lines == init + [lines[n]];
    EmbedsGrow(Filtered(init, fromIso), init, prev, lines[n]);
    if Kept(lines[n], fromIso) {
      idx := prev + [n];
    } else {
      idx := prev;
    }
    forall i | 0 <= i < |lines| && Kept(lines[i], fromIso) ensures i in idx {
      if i < n {
        assert init[i] == lines[i];
      }
    }
  }

  /** A line is in the output exactly when it is in the input and kept. */
  lemma FilteredMembers(lines: seq<string>, fromIso: string -> Option<DateTime>, line: string)
    ensures line in Filtered(lines, fromIso) <==> line in lines && Kept(line, fromIso)
  {
    var idx := FilteredSubsequence(lines, fromIso);
    var out := Filtered(lines, fromIso);
    if line in out {
      var k :| 0 <= k < |out| && out[k] == line;
      assert lines[idx[k]] == line;
    }
    if line in lines && Kept(line, fromIso) {
      var i :| 0 <= i < |lines| && lines[i] == line;
      var k :| 0 <= k < |idx| && idx[k] == i;
      assert out[k] == line;
    }
  }

  /** The cutoff is inclusive: any time on 27 June 2025 passes, and the last second of the day before does not. */
  lemma CutoffInclusive(t: DateTime)
    ensures t.year == 2025 && t.month == 6 && t.day == 27 ==> OnOrAfterCutoff(t)
    ensures t == DateTime(2025, 6, 26, 23, 59, 59) ==> !OnOrAfterCutoff(t)
  {
  }

  /** Only the date counts: two times on the same day get the same verdict, and a later day never loses one. */
  lemma DateOnly(t: DateTime, u: DateTime)
    ensures (t.year, t.month, t.day) == (u.year, u.month, u.day) ==> (OnOrAfterCutoff(t) <==> OnOrAfterCutoff(u))
    ensures OnOrAfterCutoff(t) && (u.year > t.year || (u.year == t.year && (u.month > t.month || (u.month == t.month && u.day >= t.day))))
      ==> OnOrAfterCutoff(u)
  {
  }
}
