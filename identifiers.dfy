/** Recovering the dataset identifier (DID) and the generator tag from a
    sample name, with the leftmost-match behaviour of the two regular
    expressions `\.?(?:00)?(\d{6,8})\.?` and `\.?(e\d{4})_?` under
    `re.search`, and the `os.path.basename` used on flat layouts. */
module Identifiers {
  import opened Common

  /** `\d` on a Python 2 byte string: the ASCII digits only. */
  predicate IsDigit(c: char) { '0' <= c <= '9' }

  /** The length of the longest run of digits of `s` that starts at `i`. */
  function DigitRun(s: string, i: nat): (n: nat)
    requires i <= |s|
    ensures i + n <= |s|
    ensures forall k :: i <= k < i + n ==> IsDigit(s[k])
    ensures i + n < |s| ==> !IsDigit(s[i + n])
    decreases |s| - i
  {
    if i < |s| && IsDigit(s[i]) then 1 + DigitRun(s, i + 1) else 0
  }

  function Min(a: nat, b: nat): nat { if a <= b then a else b }

  // ---------------------------------------------------------------------
  // get_did

  /** `(?:00)?(\d{6,8})` anchored at `q`: the captured group, or None.
      The optional `00` is tried first; if six digits do not follow it the
      matcher backtracks and reads the digits from `q` itself. The digit
      repetition is greedy, so it takes up to eight digits. */
  function DidGroupAt(s: string, q: nat): Option<string>
    requires q <= |s|
  {
    if q + 2 <= |s| && s[q] == '0' && s[q + 1] == '0' && DigitRun(s, q + 2) >= 6 then
      Some(s[q + 2 .. q + 2 + Min(DigitRun(s, q + 2), 8)])
    else if DigitRun(s, q) >= 6 then
      Some(s[q .. q + Min(DigitRun(s, q), 8)])
    else
      None
  }

  /** The whole pattern anchored at `p`: the leading `\.?` is tried with the
      dot first; the trailing `\.?` always matches and captures nothing. */
  function DidMatchAt(s: string, p: nat): Option<string>
    requires p <= |s|
  {
    if p < |s| && s[p] == '.' && DidGroupAt(s, p + 1).Some? then DidGroupAt(s, p + 1)
    else DidGroupAt(s, p)
  }

  /** `re.search` from position `p`: the first position with a match wins. */
  function SearchDid(s: string, p: nat): Option<string>
    requires p <= |s|
    decreases |s| - p
  {
    match DidMatchAt(s, p)
    case Some(d) => Some(d)
    case None => if p == |s| then None else SearchDid(s, p + 1)
  }

  /** get_did: group 1 of the first match, or ValueError. */
  function GetDid(filename: string): Result<string>
  {
    match SearchDid(filename, 0)
    case Some(d) => Ok(d)
    case None => Err(ValueError("Can't figure out the DID! Filename: " + filename))
  }

  /** Six digits start at position `i` of `s`. */
  ghost predicate SixDigitsAt(s: string, i: int)
  {
    0 <= i && i + 6 <= |s| && forall k :: i <= k < i + 6 ==> IsDigit(s[k])
  }

  /** Where the DID starts when the leftmost six-digit run starts at `q`: a
      leading `00` is skipped exactly when six more digits follow it. */
  ghost function DidStart(s: string, q: nat): nat
  {
    if q + 2 <= |s| && s[q] == '0' && s[q + 1] == '0' && SixDigitsAt(s, q + 2) then q + 2 else q
  }

  lemma SixDigitsRun(s: string, i: nat)
    requires i <= |s|
    ensures SixDigitsAt(s, i) <==> DigitRun(s, i) >= 6
  {
  }

  /** No match can start before the leftmost six-digit run. */
  lemma {:induction false} SearchDidReaches(s: string, p: nat, q: nat)
    requires p <= q <= |s|
    requires forall i :: 0 <= i < q ==> !SixDigitsAt(s, i)
    ensures SearchDid(s, p) == if q < |s| && SixDigitsAt(s, q) then DidGroupAt(s, q) else SearchDid(s, q)
    decreases q - p
  {
    if p < q {
      NoDidGroupBefore(s, p, q);
      if p + 1 < q { NoDidGroupBefore(s, p + 1, q); }
      SixDigitsRun(s, q);
      SearchDidReaches(s, p + 1, q);
    } else if q < |s| && SixDigitsAt(s, q) {
      SixDigitsRun(s, q);
    }
  }

  lemma NoDidGroupBefore(s: string, p: nat, q: nat)
    requires p < q <= |s|
    requires forall i :: 0 <= i < q ==> !SixDigitsAt(s, i)
    ensures DidGroupAt(s, p) == None
  {
    SixDigitsRun(s, p);
  }

  /** Without six consecutive digits anywhere there is no match. */
  lemma {:induction false} SearchDidNone(s: string, p: nat)
    requires p <= |s|
    requires forall i :: 0 <= i <= |s| ==> !SixDigitsAt(s, i)
    ensures SearchDid(s, p) == None
    decreases |s| - p
  {
    SixDigitsRun(s, p);
    if p + 2 <= |s| { SixDigitsRun(s, p + 2); }
    if p < |s| {
      SixDigitsRun(s, p + 1);
      if p + 3 <= |s| { SixDigitsRun(s, p + 3); }
      SearchDidNone(s, p + 1);
    }
  }

  /** get_did raises ValueError exactly when the name holds no run of six
      digits. */
  lemma GetDidFails(filename: string)
    ensures GetDid(filename).Err? <==> forall i :: 0 <= i <= |filename| ==> !SixDigitsAt(filename, i)
    ensures GetDid(filename).Err? ==> GetDid(filename).error.ValueError?
  {
    if forall i :: 0 <= i <= |filename| ==> !SixDigitsAt(filename, i) {
      SearchDidNone(filename, 0);
    } else {
      var i :| 0 <= i <= |filename| && SixDigitsAt(filename, i);
      var q := LeftmostSix(filename, i);
      SearchDidReaches(filename, 0, q);
      SixDigitsRun(filename, q);
    }
  }

  /** The leftmost six-digit run, given that there is one at or before `i`. */
  lemma {:induction false} LeftmostSix(s: string, i: nat) returns (q: nat)
    requires SixDigitsAt(s, i)
    ensures q <= i && SixDigitsAt(s, q)
    ensures forall k :: 0 <= k < q ==> !SixDigitsAt(s, k)
  {
    if exists k :: 0 <= k < i && SixDigitsAt(s, k) {
      var k :| 0 <= k < i && SixDigitsAt(s, k);
      q := LeftmostSix(s, k);
    } else {
      q := i;
    }
  }

  /** get_did returns the 6 to 8 digits that start the leftmost run of six or
      more digits, after a leading `00` when six digits follow that, and it
      stops only at eight digits or at the end of the run. */
  lemma GetDidLeftmost(filename: string, q: nat)
    requires SixDigitsAt(filename, q)
    requires forall i :: 0 <= i < q ==> !SixDigitsAt(filename, i)
    ensures GetDid(filename).Ok?
    ensures var d, j := GetDid(filename).value, DidStart(filename, q);
      && 6 <= |d| <= 8
      && j + |d| <= |filename|
      && d == filename[j .. j + |d|]
      && (forall k :: 0 <= k < |d| ==> IsDigit(d[k]))
      && (|d| == 8 || j + |d| == |filename| || !IsDigit(filename[j + |d|]))
  {
    SearchDidReaches(filename, 0, q);
    SixDigitsRun(filename, q);
    DidGroupShape(filename, q);
  }

  /** What `(?:00)?(\d{6,8})` captures at the start of a six-digit run. */
  lemma DidGroupShape(s: string, q: nat)
    requires SixDigitsAt(s, q)
    ensures DidGroupAt(s, q).Some?
    ensures var d, j := DidGroupAt(s, q).value, DidStart(s, q);
      && 6 <= |d| <= 8
      && j + |d| <= |s|
      && d == s[j .. j + |d|]
      && (forall k :: 0 <= k < |d| ==> IsDigit(d[k]))
      && (|d| == 8 || j + |d| == |s| || !IsDigit(s[j + |d|]))
  {
    SixDigitsRun(s, q);
    var j := DidStart(s, q);
    if q + 2 <= |s| { SixDigitsRun(s, q + 2); }
    var n := Min(DigitRun(s, j), 8);
    assert DidGroupAt(s, q) == Some(s[j .. j + n]);
  }

  // ---------------------------------------------------------------------
  // get_generator_tag

  /** `(e\d{4})` anchored at `q`: the captured group, or None. */
  function TagGroupAt(s: string, q: nat): Option<string>
    requires q <= |s|
  {
    if q + 5 <= |s| && s[q] == 'e' && DigitRun(s, q + 1) >= 4 then Some(s[q .. q + 5]) else None
  }

  /** The pattern `\.?(e\d{4})_?` anchored at `p`. */
  function TagMatchAt(s: string, p: nat): Option<string>
    requires p <= |s|
  {
    if p < |s| && s[p] == '.' && TagGroupAt(s, p + 1).Some? then TagGroupAt(s, p + 1)
    else TagGroupAt(s, p)
  }

  function SearchTag(s: string, p: nat): Option<string>
    requires p <= |s|
    decreases |s| - p
  {
    match TagMatchAt(s, p)
    case Some(t) => Some(t)
    case None => if p == |s| then None else SearchTag(s, p + 1)
  }

  /** get_generator_tag: the first group of the first match, or ValueError. */
  function GetGeneratorTag(filename: string): Result<string>
  {
    match SearchTag(filename, 0)
    case Some(t) => Ok(t)
    case None => Err(ValueError(filename + " is not a valid filename. Could not get generator tag."))
  }

  /** An `e` followed by four digits starts at position `i` of `s`. */
  ghost predicate TagAt(s: string, i: int)
  {
    0 <= i && i + 5 <= |s| && s[i] == 'e' && forall k :: i < k < i + 5 ==> IsDigit(s[k])
  }

  lemma TagAtGroup(s: string, i: nat)
    requires i <= |s|
    ensures TagAt(s, i) <==> TagGroupAt(s, i).Some?
    ensures TagAt(s, i) ==> TagGroupAt(s, i) == Some(s[i .. i + 5])
  {
  }

  lemma {:induction false} SearchTagReaches(s: string, p: nat, q: nat)
    requires p <= q <= |s|
    requires forall i :: 0 <= i < q ==> !TagAt(s, i)
    ensures SearchTag(s, p) == if TagAt(s, q) then Some(s[q .. q + 5]) else SearchTag(s, q)
    decreases q - p
  {
    TagAtGroup(s, q);
    if p < q {
      TagAtGroup(s, p);
      if p + 1 < q { TagAtGroup(s, p + 1); }
      SearchTagReaches(s, p + 1, q);
    }
  }

  lemma {:induction false} SearchTagNone(s: string, p: nat)
    requires p <= |s|
    requires forall i :: 0 <= i <= |s| ==> !TagAt(s, i)
    ensures SearchTag(s, p) == None
    decreases |s| - p
  {
    TagAtGroup(s, p);
    if p < |s| {
      TagAtGroup(s, p + 1);
      SearchTagNone(s, p + 1);
    }
  }

  lemma {:induction false} LeftmostTag(s: string, i: nat) returns (q: nat)
    requires TagAt(s, i)
    ensures q <= i && TagAt(s, q)
    ensures forall k :: 0 <= k < q ==> !TagAt(s, k)
  {
    if exists k :: 0 <= k < i && TagAt(s, k) {
      var k :| 0 <= k < i && TagAt(s, k);
      q := LeftmostTag(s, k);
    } else {
      q := i;
    }
  }

  /** get_generator_tag raises ValueError exactly when no `e` is followed by
      four digits. */
  lemma GetGeneratorTagFails(filename: string)
    ensures GetGeneratorTag(filename).Err? <==> forall i :: 0 <= i <= |filename| ==> !TagAt(filename, i)
    ensures GetGeneratorTag(filename).Err? ==> GetGeneratorTag(filename).error.ValueError?
  {
    if forall i :: 0 <= i <= |filename| ==> !TagAt(filename, i) {
      SearchTagNone(filename, 0);
    } else {
      var i :| 0 <= i <= |filename| && TagAt(filename, i);
      var q := LeftmostTag(filename, i);
      SearchTagReaches(filename, 0, q);
    }
  }

  /** get_generator_tag returns the leftmost `e` and the four digits after
      it, as a substring of the name (a fifth digit is not taken). */
  lemma GetGeneratorTagLeftmost(filename: string, q: nat)
    requires TagAt(filename, q)
    requires forall i :: 0 <= i < q ==> !TagAt(filename, i)
    ensures GetGeneratorTag(filename) == Ok(filename[q .. q + 5])
  {
    SearchTagReaches(filename, 0, q);
  }

  // ---------------------------------------------------------------------
  // os.path.basename

  /** `os.path.basename(p)`: what follows the last `/`. */
  function Basename(p: string): (b: string)
    ensures |b| <= |p| && b == p[|p| - |b| ..]
    ensures forall k :: 0 <= k < |b| ==> b[k] != '/'
    ensures |b| < |p| ==> p[|p| - |b| - 1] == '/'
  {
    if p == [] || p[|p| - 1] == '/' then []
    else Basename(p[..|p| - 1]) + [p[|p| - 1]]
  }
}
