/**
 * String and CSV helpers of the profiler (lib_profiler/datamart_profiler/core.py):
 * `truncate_string`, `expand_attribute_name` and `count_garbage_rows`.
 */
module ProfilerText {
  import opened Wrappers
  import opened PyStr
  import opened Seqs

  // ---------------------------------------------------------------------------
  // truncate_string

  /** Python's normalisation of a slice bound `i` against a length `n`. */
  function SliceIndex(i: int, n: nat): (r: nat)
    ensures r <= n
    ensures 0 <= i <= n ==> r == i
  {
    if i < 0 then (if i + n < 0 then 0 else i + n) else if i > n then n else i
  }

  /** `s.rfind(c, lo, hi)` on already normalised bounds: the last index of `c` in `s[lo:hi]`. */
  function RFindChar(s: string, c: char, lo: nat, hi: nat): (r: Option<nat>)
    requires hi <= |s|
    ensures r.Some? ==> lo <= r.value < hi && s[r.value] == c
    ensures r.Some? ==> forall j :: r.value < j < hi ==> s[j] != c
    ensures r.None? ==> forall j :: lo <= j < hi ==> s[j] != c
    decreases hi
  {
    if hi <= lo then None
    else if s[hi - 1] == c then Some(hi - 1)
    else RFindChar(s, c, lo, hi - 1)
  }

  /** The space `truncate_string` cuts at: `s.rfind(' ', limit - 20, limit - 3)`. */
  function CutSpace(s: string, limit: int): Option<nat>
  {
    RFindChar(s, ' ', SliceIndex(limit - 20, |s|), SliceIndex(limit - 3, |s|))
  }

  /** Truncate `s` to about `limit` characters, preferably at a word boundary, marking the cut with "...". */
  function TruncateString(s: string, limit: int := 140): (r: string)
    // short enough: unchanged
    ensures |s| <= limit ==> r == s
    // no space in the window: hard cut, and the result is exactly `limit` long
    ensures |s| > limit && CutSpace(s, limit).None? ==>
      r == s[..SliceIndex(limit - 3, |s|)] + "..."
    ensures |s| > limit && limit >= 3 && CutSpace(s, limit).None? ==> |r| == limit
    // a space in the window: cut at the last one, which leaves the result shorter than `limit`
    ensures |s| > limit && CutSpace(s, limit).Some? ==>
      var sp := CutSpace(s, limit).value;
      r == s[..sp] + "..." && s[sp] == ' '
    ensures |s| > limit && limit >= 3 ==> |r| <= limit
    ensures |s| > limit && limit >= 3 && CutSpace(s, limit).Some? ==> |r| < limit
  {
    if |s| <= limit then s
    else
      match CutSpace(s, limit)
      case None => s[..SliceIndex(limit - 3, |s|)] + "..."
      case Some(sp) => s[..sp] + "..."
  }

  /** With the default-sized limits (at least 20) the cut space lies in `[limit - 20, limit - 4]` and is the last there. */
  lemma TruncateAtLastSpace(s: string, limit: int)
    requires limit >= 20 && |s| > limit
    ensures CutSpace(s, limit).Some? <==> exists k :: limit - 20 <= k <= limit - 4 && s[k] == ' '
    ensures CutSpace(s, limit).Some? ==>
      var sp := CutSpace(s, limit).value;
      && limit - 20 <= sp <= limit - 4
      && (forall k :: sp < k <= limit - 4 ==> s[k] != ' ')
      && limit - 17 <= |TruncateString(s, limit)| < limit
  {
    assert SliceIndex(limit - 20, |s|) == limit - 20;
    assert SliceIndex(limit - 3, |s|) == limit - 3;
  }

  // ---------------------------------------------------------------------------
  // expand_attribute_name

  /**
   * `string.punctuation | string.whitespace`: the 32 ASCII punctuation characters (four ranges of
   * the ASCII table), and space, tab, line feed, vertical tab, form feed and carriage return.
   */
  predicate IsDelimiter(c: char)
  {
    || ('!' <= c <= '/') || (':' <= c <= '@') || ('[' <= c <= '`') || ('{' <= c <= '~')
    || c == ' ' || ('\t' <= c <= '\r')
  }

  /** A new piece starts between `prev` and `c`: a digit/non-digit switch, or lower case followed by upper case. */
  predicate Breaks(prev: char, c: char)
  {
    IsDigit(prev) != IsDigit(c) || (IsAsciiLower(prev) && IsAsciiUpper(c))
  }

  /** `name.replace('_', ' ').replace('-', ' ')`. */
  function Spaced(name: string): string
  {
    ReplaceChar(ReplaceChar(name, '_', ' '), '-', ' ')
  }

  /**
   * One character of the generator's loop: `ps` holds the pieces yielded so far followed by the
   * word being built.
   */
  function Step(ps: seq<string>, c: char): (r: seq<string>)
    requires |ps| >= 1
    ensures |r| >= 1
  {
    var w := ps[|ps| - 1];
    if IsDelimiter(c) then (if w != [] then ps + [[]] else ps)
    else if w != [] && Breaks(w[|w| - 1], c) then ps + [[c]]
    else ps[..|ps| - 1] + [w + [c]]
  }

  /**
   * The pieces `expand_attribute_name` yields for `t` (after the replacements); the last element
   * is the word still being built, which the generator always yields at the end.
   */
  function Split(t: string): (ps: seq<string>)
    ensures |ps| >= 1
  {
    if t == [] then [[]] else Step(Split(t[..|t| - 1]), t[|t| - 1])
  }

  lemma SplitSnoc(p: string, c: char)
    ensures Split(p + [c]) == Step(Split(p), c)
  {
    assert (p + [c])[..|p|] == p;
  }

  lemma StepWord(out: seq<string>, word: string, c: char)
    ensures Step(out + [word], c) ==
      if IsDelimiter(c) then (if word != [] then out + [word] + [[]] else out + [word])
      else if word != [] && Breaks(word[|word| - 1], c) then out + [word] + [[c]]
      else out + [word + [c]]
  {
    var ps := out + [word];
    assert ps[..|ps| - 1] == out && ps[|ps| - 1] == word;
  }

  /** A character that neither delimits nor breaks extends the word being built. */
  lemma StepGrows(out: seq<string>, word: string, c: char)
    requires !IsDelimiter(c) && (word == [] || !Breaks(word[|word| - 1], c))
    ensures Step(out + [word], c) == out + [word + [c]]
  {
    StepWord(out, word, c);
  }

  /** The keywords derived from a column name. */
  method ExpandAttributeName(name: string) returns (pieces: seq<string>)
    ensures pieces == Split(Spaced(name))
  {
    var t := Spaced(name);
    var out: seq<string> := [];
    var word: string := [];
    var i := 0;
    while i < |t|
      invariant 0 <= i <= |t|
      invariant out + [word] == Split(t[..i])
    {
      var c := t[i];
      assert t[..i + 1] == t[..i] + [c];
      SplitSnoc(t[..i], c);
      ghost var next := Step(out + [word], c);
      StepWord(out, word, c);
      if IsDelimiter(c) {
        if word != [] {
          assert next == out + [word] + [[]];
          out := out + [word];
          word := [];
        } else {
          assert next == out + [word];
        }
      } else {
        if word != [] && Breaks(word[|word| - 1], c) {
          assert next == out + [word] + [[c]];
          out := out + [word];
          word := [c];
        } else {
          assert next == out + [word + [c]];
          word := word + [c];
        }
      }
      assert out + [word] == next;
      i := i + 1;
    }
    assert t[..|t|] == t;
    pieces := out + [word];
  }

  /** `t` with its delimiters removed. */
  function RemoveDelimiters(t: string): (r: string)
    ensures forall k :: 0 <= k < |r| ==> !IsDelimiter(r[k])
  {
    if t == [] then []
    else RemoveDelimiters(t[..|t| - 1]) + (if IsDelimiter(t[|t| - 1]) then [] else [t[|t| - 1]])
  }

  /** The pieces put back together give the name with every delimiter removed. */
  lemma {:induction false} SplitConcat(t: string)
    ensures Concat(Split(t)) == RemoveDelimiters(t)
  {
    if t != [] {
      var p := t[..|t| - 1];
      var c := t[|t| - 1];
      var ps := Split(p);
      var out := ps[..|ps| - 1];
      var w := ps[|ps| - 1];
      SplitConcat(p);
      assert ps == out + [w];
      ConcatAppend(out, w);
      StepWord(out, w, c);
      assert Split(t) == Step(out + [w], c);
      if IsDelimiter(c) {
        assert RemoveDelimiters(t) == RemoveDelimiters(p);
        if w != [] {
          assert Split(t) == ps + [[]];
          ConcatAppend(ps, []);
        } else {
          assert Split(t) == ps;
        }
      } else {
        assert RemoveDelimiters(t) == RemoveDelimiters(p) + [c];
        if w != [] && Breaks(w[|w| - 1], c) {
          assert Split(t) == ps + [[c]];
          ConcatAppend(ps, [c]);
        } else {
          assert Split(t) == out + [w + [c]];
          ConcatAppend(out, w + [c]);
        }
      }
    }
  }

  /** `w` contains no delimiter and no break between two of its characters. */
  predicate Clean(w: string)
  {
    (forall k :: 0 <= k < |w| ==> !IsDelimiter(w[k])) && (forall k :: 0 <= k < |w| - 1 ==> !Breaks(w[k], w[k + 1]))
  }

  lemma CleanSnoc(w: string, c: char)
    requires Clean(w) && !IsDelimiter(c) && (w == [] || !Breaks(w[|w| - 1], c))
    ensures Clean(w + [c])
  {
    var v := w + [c];
    forall k | 0 <= k < |v| - 1
      ensures !Breaks(v[k], v[k + 1])
    {
      if k + 1 < |w| {
        assert v[k] == w[k] && v[k + 1] == w[k + 1];
      } else {
        assert v[k] == w[|w| - 1] && v[k + 1] == c;
      }
    }
  }

  /** No piece contains a delimiter, and no piece contains a break between two of its characters. */
  lemma {:induction false} SplitPiecesClean(t: string)
    ensures forall i :: 0 <= i < |Split(t)| ==> Clean(Split(t)[i])
  {
    if t != [] {
      var p, c := t[..|t| - 1], t[|t| - 1];
      SplitPiecesClean(p);
      var ps := Split(p);
      var out, w := ps[..|ps| - 1], ps[|ps| - 1];
      assert ps == out + [w];
      assert Clean(w) && forall i :: 0 <= i < |out| ==> Clean(out[i]);
      StepWord(out, w, c);
      var qs := Split(t);
      if !IsDelimiter(c) && !(w != [] && Breaks(w[|w| - 1], c)) {
        CleanSnoc(w, c);
        assert qs == out + [w + [c]];
      } else {
        assert Clean([]) && (!IsDelimiter(c) ==> Clean([c]));
      }
    }
  }

  /** Only the final piece can be empty, and it is empty exactly when the name is empty or ends in a delimiter. */
  lemma {:induction false} SplitEmptyPieces(t: string)
    ensures forall i :: 0 <= i < |Split(t)| - 1 ==> Split(t)[i] != []
    ensures Split(t)[|Split(t)| - 1] == [] <==> (t == [] || IsDelimiter(t[|t| - 1]))
  {
    if t != [] {
      SplitEmptyPieces(t[..|t| - 1]);
    }
  }

  /** Pieces `i` and `i + 1` are both non-empty and meet at a break. */
  predicate MeetAtBreak(ps: seq<string>, i: nat)
    requires i + 1 < |ps|
  {
    ps[i] != [] && ps[i + 1] != [] && Breaks(ps[i][|ps[i]| - 1], ps[i + 1][0])
  }

  /** Without delimiters, consecutive pieces always meet at a break: pieces start exactly at breaks. */
  lemma {:induction false} SplitCutsAtBreaks(t: string)
    requires forall k :: 0 <= k < |t| ==> !IsDelimiter(t[k])
    ensures forall i: nat :: i + 1 < |Split(t)| ==> MeetAtBreak(Split(t), i)
  {
    if t != [] {
      var p := t[..|t| - 1];
      var c := t[|t| - 1];
      var ps := Split(p);
      var w := ps[|ps| - 1];
      SplitCutsAtBreaks(p);
      SplitEmptyPieces(p);
      var qs := Split(t);
      if w != [] && Breaks(w[|w| - 1], c) {
        assert qs == ps + [[c]];
        forall i: nat | i + 1 < |qs| ensures MeetAtBreak(qs, i) {
          if i + 1 < |ps| { assert MeetAtBreak(ps, i); }
        }
      } else {
        assert qs == ps[..|ps| - 1] + [w + [c]];
        assert w == [] ==> |ps| == 1;
        forall i: nat | i + 1 < |qs| ensures MeetAtBreak(qs, i) {
          assert MeetAtBreak(ps, i);
        }
      }
    }
  }

  /** A name is its own single keyword exactly when it has no delimiter and no break. */
  lemma {:induction false} SplitSingle(t: string)
    ensures Split(t) == [t] <==>
      (forall k :: 0 <= k < |t| ==> !IsDelimiter(t[k])) && (forall k :: 0 <= k < |t| - 1 ==> !Breaks(t[k], t[k + 1]))
  {
    if Split(t) == [t] {
      SplitPiecesClean(t);
      assert Split(t)[0] == t;
    }
    if (forall k :: 0 <= k < |t| ==> !IsDelimiter(t[k])) && (forall k :: 0 <= k < |t| - 1 ==> !Breaks(t[k], t[k + 1])) {
      SingleFromClean(t);
    }
  }

  /** A single piece holds no delimiter. */
  lemma SplitSingleClean(t: string, u: string)
    ensures Split(t) == [u] ==> forall k :: 0 <= k < |u| ==> !IsDelimiter(u[k])
  {
    SplitPiecesClean(t);
    if Split(t) == [u] {
      assert u == Split(t)[0];
    }
  }

  lemma {:induction false} SingleFromClean(t: string)
    requires forall k :: 0 <= k < |t| ==> !IsDelimiter(t[k])
    requires forall k :: 0 <= k < |t| - 1 ==> !Breaks(t[k], t[k + 1])
    ensures Split(t) == [t]
  {
    if t != [] {
      var p := t[..|t| - 1];
      SingleFromClean(p);
      assert p + [t[|t| - 1]] == t;
      if p != [] {
        assert !Breaks(t[|t| - 2], t[|t| - 1]);
      }
    }
  }

  /** Within a run of characters that neither delimit nor break, the last piece keeps growing. */
  lemma {:induction false} SplitRun(t: string, s: nat, e: nat, out: seq<string>)
    requires s < e <= |t|
    requires Split(t[..s + 1]) == out + [t[s..s + 1]]
    requires forall k :: s < k < e ==> !IsDelimiter(t[k]) && !Breaks(t[k - 1], t[k])
    ensures Split(t[..e]) == out + [t[s..e]]
    decreases e
  {
    if e > s + 1 {
      SplitRun(t, s, e - 1, out);
      SplitGrows(t, s, e, out);
    }
  }

  /** One more character of a run. */
  lemma SplitGrows(t: string, s: nat, e: nat, out: seq<string>)
    requires s + 1 < e <= |t|
    requires Split(t[..e - 1]) == out + [t[s..e - 1]]
    requires !IsDelimiter(t[e - 1]) && !Breaks(t[e - 2], t[e - 1])
    ensures Split(t[..e]) == out + [t[s..e]]
  {
    var word := t[s..e - 1];
    assert |word| == e - 1 - s > 0;
    assert word[|word| - 1] == t[e - 2];
    assert t[..e] == t[..e - 1] + [t[e - 1]];
    SplitSnoc(t[..e - 1], t[e - 1]);
    StepGrows(out, word, t[e - 1]);
    assert word + [t[e - 1]] == t[s..e];
  }

  /** A break at `e` closes the piece being built and starts a new one with `t[e]`. */
  lemma SplitCut(t: string, s: nat, e: nat, out: seq<string>)
    requires s < e < |t|
    requires Split(t[..e]) == out + [t[s..e]]
    requires !IsDelimiter(t[e]) && Breaks(t[e - 1], t[e])
    ensures Split(t[..e + 1]) == (out + [t[s..e]]) + [t[e..e + 1]]
  {
    assert t[..e + 1] == t[..e] + [t[e]];
    SplitSnoc(t[..e], t[e]);
    StepWord(out, t[s..e], t[e]);
    assert t[s..e][e - s - 1] == t[e - 1];
    assert [t[e]] == t[e..e + 1];
  }

  /** A break at `e` closes the piece `t[s..e]`, and the next piece runs up to the next break `f`. */
  lemma SplitNextPiece(t: string, s: nat, e: nat, f: nat, out: seq<string>)
    requires s < e < f <= |t|
    requires Split(t[..e]) == out + [t[s..e]]
    requires !IsDelimiter(t[e]) && Breaks(t[e - 1], t[e])
    requires forall k :: e < k < f ==> !IsDelimiter(t[k]) && !Breaks(t[k - 1], t[k])
    ensures Split(t[..f]) == out + [t[s..e], t[e..f]]
  {
    SplitCut(t, s, e, out);
    SplitRun(t, e, f, out + [t[s..e]]);
  }

  /** The name `Apt221bBakerStreet`, character by character. */
  predicate IsExampleName(t: string)
  {
    && |t| == 18
    && t[0] == 'A' && t[1] == 'p' && t[2] == 't' && t[3] == '2' && t[4] == '2' && t[5] == '1' && t[6] == 'b'
    && t[7] == 'B' && t[8] == 'a' && t[9] == 'k' && t[10] == 'e' && t[11] == 'r'
    && t[12] == 'S' && t[13] == 't' && t[14] == 'r' && t[15] == 'e' && t[16] == 'e' && t[17] == 't'
  }

  /** The example, one piece at a time so that each step stays small. */
  lemma ExampleStart(t: string)
    requires IsExampleName(t)
    ensures Split(t[..3]) == [t[0..3]]
  {
    assert t[..1] == [] + [t[0]];
    SplitSnoc([], t[0]);
    assert Split(t[..1]) == [] + [t[0..1]];
    SplitRun(t, 0, 3, []);
  }

  lemma ExampleFirst(t: string)
    requires IsExampleName(t)
    ensures Split(t[..6]) == [t[0..3], t[3..6]]
  {
    ExampleStart(t);
    SplitNextPiece(t, 0, 3, 6, []);
  }

  lemma ExampleSecond(t: string)
    requires IsExampleName(t)
    requires Split(t[..6]) == [t[0..3], t[3..6]]
    ensures Split(t[..7]) == [t[0..3], t[3..6], t[6..7]]
  {
    SplitNextPiece(t, 3, 6, 7, [t[0..3]]);
  }

  lemma ExampleThird(t: string)
    requires IsExampleName(t)
    requires Split(t[..7]) == [t[0..3], t[3..6], t[6..7]]
    ensures Split(t[..12]) == [t[0..3], t[3..6], t[6..7], t[7..12]]
  {
    SplitNextPiece(t, 6, 7, 12, [t[0..3], t[3..6]]);
  }

  lemma ExampleLast(t: string)
    requires IsExampleName(t)
    requires Split(t[..12]) == [t[0..3], t[3..6], t[6..7], t[7..12]]
    ensures Split(t) == [t[0..3], t[3..6], t[6..7], t[7..12], t[12..]]
  {
    SplitNextPiece(t, 7, 12, 18, [t[0..3], t[3..6], t[6..7]]);
    assert t[..18] == t;
  }

  /** The name `'Apt221bBakerStreet'` gives `Apt`, `221`, `b`, `Baker`, `Street`. */
  lemma ExpandExample(name: string)
    requires name == "Apt221bBakerStreet"
    ensures Split(Spaced(name)) == ["Apt", "221", "b", "Baker", "Street"]
  {
    assert IsExampleName(name);
    ExampleSpaced(name);
    ExampleFirst(name);
    ExampleSecond(name);
    ExampleThird(name);
    ExampleLast(name);
    ExamplePieces(name);
  }

  lemma ExampleSpaced(t: string)
    requires IsExampleName(t)
    ensures Spaced(t) == t
  {
    forall k | 0 <= k < |t|
      ensures t[k] != '_' && t[k] != '-'
    {
      assert k < 9 || 9 <= k < 18;
      if k < 9 {
        assert k == 0 || k == 1 || k == 2 || k == 3 || k == 4 || k == 5 || k == 6 || k == 7 || k == 8;
      } else {
        assert k == 9 || k == 10 || k == 11 || k == 12 || k == 13 || k == 14 || k == 15 || k == 16 || k == 17;
      }
    }
    assert ReplaceChar(t, '_', ' ') == t;
  }

  lemma ExamplePieces(t: string)
    requires IsExampleName(t)
    ensures [t[0..3], t[3..6], t[6..7], t[7..12], t[12..]] == ["Apt", "221", "b", "Baker", "Street"]
  {
    assert t[0..3] == "Apt" && t[3..6] == "221" && t[6..7] == "b";
    assert t[7..12] == "Baker";
    assert t[12..] == "Street";
  }

  // ---------------------------------------------------------------------------
  // count_garbage_rows

  /** At most that many rows are discarded at the top of the file. */
  const HeaderMaxGarbage: nat := 6
  /** That many consecutive rows of equal width mark the start of the data. */
  const HeaderConsistentRows: nat := 4

  /** Four consecutive rows of equal width start at `j`. */
  predicate ConsistentAt(lens: seq<nat>, j: nat)
  {
    j + 4 <= |lens| && lens[j] == lens[j + 1] == lens[j + 2] == lens[j + 3]
  }

  /**
   * The number of title rows above the data, computed over the widths of the CSV rows (the CSV
   * reading is not modelled). Only the first `HeaderMaxGarbage + HeaderConsistentRows` rows are read.
   */
  method CountGarbageRows(rowLengths: seq<nat>) returns (r: Result<nat>)
    // the "Can't find consistent CSV data" error cannot happen
    ensures r.Ok?
    ensures r.value < HeaderMaxGarbage + HeaderConsistentRows
    ensures var lens := rowLengths[..Min(|rowLengths|, HeaderMaxGarbage + HeaderConsistentRows)];
      // the first run of four rows of equal width, if there is one
      && ((exists j: nat :: ConsistentAt(lens, j)) ==>
            ConsistentAt(lens, r.value) && forall j: nat :: j < r.value ==> !ConsistentAt(lens, j))
      // otherwise the start of the last run, 0 for an empty file
      && ((forall j: nat :: !ConsistentAt(lens, j)) ==>
            && (lens == [] ==> r.value == 0)
            && (lens != [] ==>
                  && r.value < |lens|
                  && (forall k :: r.value <= k < |lens| ==> lens[k] == lens[|lens| - 1])
                  && (r.value > 0 ==> lens[r.value - 1] != lens[r.value])))
  {
    var lens := rowLengths[..Min(|rowLengths|, HeaderMaxGarbage + HeaderConsistentRows)];
    var runStart: nat := 0;
    var runCols: Option<nat> := None;
    var runLen: nat := 0;
    var i := 0;
    while i < |lens|
      invariant 0 <= i <= |lens|
      invariant i == 0 ==> runStart == 0 && runCols == None
      invariant i > 0 ==> runStart < i && runCols == Some(lens[runStart]) && runLen == i - runStart
      invariant i > 0 ==> forall k :: runStart <= k < i ==> lens[k] == lens[runStart]
      invariant runStart > 0 ==> lens[runStart - 1] != lens[runStart]
      invariant runLen < HeaderConsistentRows
      invariant forall j: nat :: j + 4 <= i ==> !ConsistentAt(lens, j)
    {
      if i >= HeaderMaxGarbage + HeaderConsistentRows {
        return Err("Can't find consistent CSV data in file");
      }
      if runCols == Some(lens[i]) {
        runLen := runLen + 1;
        if runLen == HeaderConsistentRows {
          assert ConsistentAt(lens, runStart);
          return Ok(runStart);
        }
      } else {
        runStart := i;
        runCols := Some(lens[i]);
        runLen := 1;
      }
      i := i + 1;
    }
    return Ok(runStart);
  }
}
