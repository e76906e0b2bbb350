/** The input-list reading of weights.py: each line of a list file that is
    neither a `#` comment nor blank names one dataset, with its trailing
    whitespace removed. */
module InputList {

  /** Whitespace as Python 2's `str.strip` sees it. */
  predicate IsSpace(c: char)
  {
    c == ' ' || c == '\t' || c == '\n' || c == '\r' || c == '\U{0B}' || c == '\U{0C}'
  }

  /** `s.rstrip()` */
  function RStrip(s: string): (r: string)
    ensures |r| <= |s| && r == s[..|r|]
    ensures r == [] || !IsSpace(r[|r| - 1])
    ensures forall k :: |r| <= k < |s| ==> IsSpace(s[k])
  {
    if s != [] && IsSpace(s[|s| - 1]) then RStrip(s[..|s| - 1]) else s
  }

  /** `s.lstrip()` */
  function LStrip(s: string): (r: string)
    ensures |r| <= |s| && r == s[|s| - |r|..]
    ensures r == [] || !IsSpace(r[0])
    ensures forall k :: 0 <= k < |s| - |r| ==> IsSpace(s[k])
  {
    if s != [] && IsSpace(s[0]) then LStrip(s[1..]) else s
  }

  /** `s.strip()` */
  function Strip(s: string): string
  {
    LStrip(RStrip(s))
  }

  /** A line strips to nothing exactly when it is all whitespace. */
  lemma StripEmpty(s: string)
    ensures Strip(s) == [] <==> forall k :: 0 <= k < |s| ==> IsSpace(s[k])
  {
    var r := RStrip(s);
    if Strip(s) == [] {
      forall k | 0 <= k < |s| ensures IsSpace(s[k]) {
        if k < |r| { assert IsSpace(r[k]); }
      }
    }
  }

  /** The lines the loop skips with `continue`. */
  predicate Skipped(line: string)
  {
    (|line| > 0 && line[0] == '#') || Strip(line) == []
  }

  /** The dataset names handed to the scanner, in file order. */
  function Kept(lines: seq<string>): seq<string>
  {
    if lines == [] then []
    else
      var last := lines[|lines| - 1];
      Kept(lines[..|lines| - 1]) + (if Skipped(last) then [] else [RStrip(last)])
  }

  /** The loop over the lines of a list file. */
  method ScanInputList(lines: seq<string>) returns (names: seq<string>)
    ensures names == Kept(lines)
  {
    names := [];
    var i := 0;
    while i < |lines|
      invariant 0 <= i <= |lines|
      invariant names == Kept(lines[..i])
    {
      KeptSnoc(lines, i);
      var line := lines[i];
      if |line| > 0 && line[0] == '#' {
        i := i + 1;
        continue;
      }
      if Strip(line) == [] {
        i := i + 1;
        continue;
      }
      names := names + [RStrip(line)];
      i := i + 1;
    }
    assert lines[..i] == lines;
  }

  lemma KeptSnoc(lines: seq<string>, i: nat)
    requires i < |lines|
    ensures Kept(lines[..i + 1]) == Kept(lines[..i]) + (if Skipped(lines[i]) then [] else [RStrip(lines[i])])
  {
    assert lines[..i + 1][..i] == lines[..i];
  }

  /** The filter works line by line: the names of two pieces of a file are
      the names of the first piece followed by those of the second. */
  lemma {:induction false} KeptConcat(a: seq<string>, b: seq<string>)
    ensures Kept(a + b) == Kept(a) + Kept(b)
  {
    if b != [] {
      var front := b[..|b| - 1];
      KeptConcat(a, front);
      assert (a + b)[..|a + b| - 1] == a + front;
    } else {
      assert a + b == a;
    }
  }

  /** A name is passed on exactly when it is the stripped form of a line that
      is neither a comment nor blank. */
  lemma {:induction false} KeptMembers(lines: seq<string>)
    ensures forall x :: x in Kept(lines) <==> exists i :: 0 <= i < |lines| && !Skipped(lines[i]) && x == RStrip(lines[i])
  {
    if lines != [] {
      var front, last := lines[..|lines| - 1], lines[|lines| - 1];
      KeptMembers(front);
      assert Kept(lines) == Kept(front) + (if Skipped(last) then [] else [RStrip(last)]);
      forall x | x in Kept(lines)
        ensures exists i :: 0 <= i < |lines| && !Skipped(lines[i]) && x == RStrip(lines[i])
      {
        if x in Kept(front) {
          var i :| 0 <= i < |front| && !Skipped(front[i]) && x == RStrip(front[i]);
          assert lines[i] == front[i];
        } else {
          assert !Skipped(lines[|lines| - 1]) && x == RStrip(lines[|lines| - 1]);
        }
      }
      forall i | 0 <= i < |lines| && !Skipped(lines[i])
        ensures RStrip(lines[i]) in Kept(lines)
      {
        if i < |front| {
          assert front[i] == lines[i];
        }
      }
    }
  }

  /** Every name passed on is non-empty, does not start with `#` and does
      not end in whitespace. */
  lemma {:induction false} KeptShape(lines: seq<string>)
    ensures forall x :: x in Kept(lines) ==> |x| > 0 && x[0] != '#' && !IsSpace(x[|x| - 1])
  {
    KeptMembers(lines);
    forall x | x in Kept(lines) ensures |x| > 0 && x[0] != '#' && !IsSpace(x[|x| - 1]) {
      var i :| 0 <= i < |lines| && !Skipped(lines[i]) && x == RStrip(lines[i]);
      StripEmpty(lines[i]);
    }
  }
}
