/*
 * Offset -> (line, column) resolution over one document.
 *
 * A LineColumnFinder is built once per document: it records the offset at
 * which every line starts, then answers each query with a lower-bound binary
 * search over those line starts. Positions are 1-based.
 */
module LineColumnFromIndex {

  /** A 1-based (line, column) position. */
  datatype LineColumn = LineColumn(line: int, col: int)

  /** The ways a query can be rejected; TooLarge carries the document length. */
  datatype IndexError =
    | Negative(index: int)
    | TooLarge(index: int, length: nat)

  datatype Result<+T> = Ok(value: T) | Err(error: IndexError)

  /** `a` is at or before `b`, comparing the line first and then the column. */
  predicate AtOrBefore(a: LineColumn, b: LineColumn) {
    a.line < b.line || (a.line == b.line && a.col <= b.col)
  }

  // ---------------------------------------------------------------------
  // Splitting a document on '\n' (JavaScript's `str.split('\n')`)
  // ---------------------------------------------------------------------

  /** The pieces between '\n' characters; "" gives [""], a trailing '\n' gives a final "". */
  function Split(s: seq<char>): (lines: seq<seq<char>>)
    ensures |lines| >= 1
  {
    if |s| == 0 then [[]]
    else
      var init := Split(s[..|s| - 1]);
      var c := s[|s| - 1];
      if c == '\n' then init + [[]]
      else init[..|init| - 1] + [init[|init| - 1] + [c]]
  }

  /** The pieces glued back together with '\n' between them. */
  function Join(lines: seq<seq<char>>): (text: seq<char>)
    requires |lines| >= 1
  {
    if |lines| == 1 then lines[0]
    else Join(lines[..|lines| - 1]) + ['\n'] + lines[|lines| - 1]
  }

  /** Appending a character to the last piece appends it to the joined text. */
  lemma JoinExtendLast(lines: seq<seq<char>>, c: char)
    requires |lines| >= 1
    ensures Join(lines[..|lines| - 1] + [lines[|lines| - 1] + [c]]) == Join(lines) + [c]
  {
    var k := |lines| - 1;
    var extended := lines[..k] + [lines[k] + [c]];
    if k > 0 {
      assert extended[..k] == lines[..k];
      assert lines[..|lines| - 1] == lines[..k];
    }
  }

  /** Splitting loses nothing: the pieces join back to the document. */
  lemma {:induction false} SplitJoin(s: seq<char>)
    ensures Join(Split(s)) == s
  {
    if |s| > 0 {
      var s', c := s[..|s| - 1], s[|s| - 1];
      var init := Split(s');
      SplitJoin(s');
      if c == '\n' {
        assert (init + [[]])[..|init|] == init;
      } else {
        JoinExtendLast(init, c);
      }
      assert s == s' + [c];
    }
  }

  /** No piece of a split contains '\n', and there is one piece more than there are '\n's. */
  lemma {:induction false} SplitPieces(s: seq<char>)
    ensures |Split(s)| == multiset(s)['\n'] + 1
    ensures forall i :: 0 <= i < |Split(s)| ==> '\n' !in Split(s)[i]
  {
    if |s| > 0 {
      var s', c := s[..|s| - 1], s[|s| - 1];
      assert s == s' + [c];
      var init := Split(s');
      SplitPieces(s');
      if c != '\n' {
        var k := |init| - 1;
        var lines := init[..k] + [init[k] + [c]];
        forall i | 0 <= i < |lines| ensures '\n' !in lines[i] {
          if i < k { assert lines[i] == init[i]; }
        }
      }
    }
  }

  // ---------------------------------------------------------------------
  // Line starts
  // ---------------------------------------------------------------------

  /**
   * The offset of the first character of every line, in order: 0, and one
   * past every '\n'. Reference definition, independent of Split.
   */
  function LineStarts(s: seq<char>): (starts: seq<int>)
    ensures |starts| >= 1 && starts[0] == 0
  {
    if |s| == 0 then [0]
    else
      var prev := LineStarts(s[..|s| - 1]);
      if s[|s| - 1] == '\n' then prev + [|s|] else prev
  }

  /** Sortedness in the sense the search needs (non-decreasing). */
  predicate Sorted(arr: seq<int>) {
    forall i, j :: 0 <= i < j < |arr| ==> arr[i] <= arr[j]
  }

  /** One line per '\n' plus one: a trailing '\n' starts a final, empty line. */
  lemma {:induction false} LineStartsCount(s: seq<char>)
    ensures |LineStarts(s)| == multiset(s)['\n'] + 1
  {
    if |s| > 0 {
      var s' := s[..|s| - 1];
      assert s == s' + [s[|s| - 1]];
      LineStartsCount(s');
    }
  }

  /** Line starts lie within [0, |s|]; in particular the last one is at most |s|. */
  lemma {:induction false} LineStartsWithin(s: seq<char>)
    ensures forall i :: 0 <= i < |LineStarts(s)| ==> 0 <= LineStarts(s)[i] <= |s|
  {
    if |s| > 0 {
      LineStartsWithin(s[..|s| - 1]);
    }
  }

  /** The line-start index is strictly increasing, hence sorted. */
  lemma {:induction false} LineStartsIncreasing(s: seq<char>)
    ensures forall i, j :: 0 <= i < j < |LineStarts(s)| ==> LineStarts(s)[i] < LineStarts(s)[j]
    ensures Sorted(LineStarts(s))
  {
    if |s| > 0 {
      LineStartsIncreasing(s[..|s| - 1]);
      LineStartsWithin(s[..|s| - 1]);
    }
  }

  /** Every line start after the first is one past a '\n'. */
  lemma {:induction false} LineStartsAfterNewline(s: seq<char>)
    ensures forall i :: 0 < i < |LineStarts(s)| ==> 1 <= LineStarts(s)[i] <= |s| && s[LineStarts(s)[i] - 1] == '\n'
  {
    if |s| > 0 {
      var s' := s[..|s| - 1];
      LineStartsAfterNewline(s');
      var prev := LineStarts(s');
      forall i | 0 < i < |prev| ensures s[prev[i] - 1] == '\n' {
        assert s[prev[i] - 1] == s'[prev[i] - 1];
      }
    }
  }

  /** Every '\n' is followed by a line start. */
  lemma {:induction false} LineStartsComplete(s: seq<char>)
    ensures forall p :: 0 <= p < |s| && s[p] == '\n' ==> p + 1 in LineStarts(s)
  {
    if |s| > 0 {
      var s' := s[..|s| - 1];
      LineStartsComplete(s');
      forall p | 0 <= p < |s| && s[p] == '\n' ensures p + 1 in LineStarts(s) {
        if p < |s'| { assert s'[p] == '\n'; }
      }
    }
  }

  /**
   * The line starts of a prefix s[..o] are exactly the line starts of s that
   * are at most o: they form a prefix of LineStarts(s), and every later entry
   * lies beyond o.
   */
  lemma {:induction false} LineStartsPrefix(s: seq<char>, o: int)
    requires 0 <= o <= |s|
    ensures var before, starts := LineStarts(s[..o]), LineStarts(s);
      && |before| <= |starts|
      && before == starts[..|before|]
      && (forall k :: |before| <= k < |starts| ==> o < starts[k])
    decreases |s|
  {
    if o < |s| {
      var s' := s[..|s| - 1];
      assert s'[..o] == s[..o];
      LineStartsPrefix(s', o);
    } else {
      assert s[..o] == s;
    }
  }

  // ---------------------------------------------------------------------
  // The running sum that buildLineToIndex keeps
  // ---------------------------------------------------------------------

  /** Sum of (length + 1) over the lines: the offset just after their last '\n'. */
  function Total(lines: seq<seq<char>>): (sum: nat) {
    if lines == [] then 0
    else Total(lines[..|lines| - 1]) + |lines[|lines| - 1]| + 1
  }

  /** Entry i is the running sum over the lines before line i. */
  function PrefixStarts(lines: seq<seq<char>>): (starts: seq<int>)
    ensures |starts| == |lines|
  {
    if lines == [] then []
    else PrefixStarts(lines[..|lines| - 1]) + [Total(lines[..|lines| - 1])]
  }

  lemma {:induction false} PrefixStartsAt(lines: seq<seq<char>>, i: int)
    requires 0 <= i < |lines|
    ensures PrefixStarts(lines)[i] == Total(lines[..i])
    decreases |lines|
  {
    var init := lines[..|lines| - 1];
    if i < |init| {
      PrefixStartsAt(init, i);
      assert init[..i] == lines[..i];
    }
  }

  /**
   * Summing the lengths of the split pieces, as buildLineToIndex does, gives
   * exactly the line starts; the pieces add up to one past the document length.
   */
  lemma {:induction false} SplitStarts(s: seq<char>)
    ensures PrefixStarts(Split(s)) == LineStarts(s)
    ensures Total(Split(s)) == |s| + 1
  {
    if |s| > 0 {
      var s', c := s[..|s| - 1], s[|s| - 1];
      var init := Split(s');
      SplitStarts(s');
      if c == '\n' {
        assert (init + [[]])[..|init|] == init;
      } else {
        var k := |init| - 1;
        var lines := init[..k] + [init[k] + [c]];
        assert lines[..k] == init[..k];
        assert init[..|init| - 1] == init[..k];
      }
    }
  }

  /**
   * buildLineToIndex: split on '\n' and record a running offset, one line at
   * a time, into a preallocated array.
   */
  method BuildLineToIndex(str: seq<char>) returns (lineToIndex: array<int>)
    ensures fresh(lineToIndex)
    ensures lineToIndex[..] == LineStarts(str)
  {
    var lines := Split(str);
    lineToIndex := new int[|lines|];
    var index := 0;
    for i := 0 to |lines|
      invariant lineToIndex[..i] == PrefixStarts(lines[..i])
      invariant index == Total(lines[..i])
    {
      lineToIndex[i] := index;
      assert lines[..i + 1][..i] == lines[..i];
      index := index + |lines[i]| + 1;
    }
    assert lines[..|lines|] == lines;
    assert lineToIndex[..] == lineToIndex[..|lines|];
    SplitStarts(str);
  }

  // ---------------------------------------------------------------------
  // Lower-bound search
  // ---------------------------------------------------------------------

  /** `i` names the range [arr[i], arr[i+1]) holding `value`, the last range being open. */
  predicate IsLowerIndex(arr: seq<int>, value: int, i: int) {
    0 <= i < |arr| && arr[i] <= value && (i == |arr| - 1 || value < arr[i + 1])
  }

  /** In a sorted array the range holding a value is unique. */
  lemma LowerIndexUnique(arr: seq<int>, value: int, i: int, j: int)
    requires Sorted(arr)
    requires IsLowerIndex(arr, value, i) && IsLowerIndex(arr, value, j)
    ensures i == j
  {
  }

  /**
   * findLowerIndexInRangeArray: values at or past the last entry land in the
   * last range; otherwise a binary search over [0, |arr|-2] keeps
   * arr[min] <= value < arr[max+1] until the range is found.
   */
  method FindLowerIndexInRangeArray(value: int, arr: array<int>) returns (found: int)
    requires arr.Length > 0
    requires Sorted(arr[..])
    requires arr[0] <= value
    ensures IsLowerIndex(arr[..], value, found)
    ensures value >= arr[arr.Length - 1] ==> found == arr.Length - 1
  {
    if value >= arr[arr.Length - 1] {
      return arr.Length - 1;
    }

    var min := 0;
    var max := arr.Length - 2;
    var mid := 0;
    while min < max
      invariant 0 <= min <= max <= arr.Length - 2
      invariant arr[min] <= value < arr[max + 1]
      decreases max - min
    {
      mid := min + (max - min) / 2;

      if value < arr[mid] {
        max := mid - 1;
      } else if value >= arr[mid + 1] {
        min := mid + 1;
      } else {
        min := mid;
        break;
      }
    }
    found := min;
  }

  // ---------------------------------------------------------------------
  // Resolution
  // ---------------------------------------------------------------------

  /**
   * Reference meaning of a query: the line is the number of lines that have
   * started at or before the offset, the column the distance from the last of
   * those line starts, both counted from 1. Offsets outside [0, |s|] fail.
   */
  function Resolve(s: seq<char>, offset: int): (r: Result<LineColumn>)
    ensures r.Ok? <==> 0 <= offset <= |s|
    ensures offset < 0 ==> r == Err(Negative(offset))
    ensures offset > |s| ==> r == Err(TooLarge(offset, |s|))
  {
    if offset < 0 then Err(Negative(offset))
    else if offset > |s| then Err(TooLarge(offset, |s|))
    else
      var before := LineStarts(s[..offset]);
      Ok(LineColumn(|before|, offset - before[|before| - 1] + 1))
  }

  /** A resolved position is 1-based and names one of the document's lines. */
  lemma ResolveBounds(s: seq<char>, offset: int)
    requires 0 <= offset <= |s|
    ensures 1 <= Resolve(s, offset).value.line <= multiset(s)['\n'] + 1
    ensures 1 <= Resolve(s, offset).value.col <= offset + 1
  {
    LineStartsWithin(s[..offset]);
    LineStartsCount(s);
    LineStartsPrefix(s, offset);
  }

  /** The last line start at or before an offset names the range that holds it. */
  lemma LowerIndexOfPrefix(s: seq<char>, offset: int)
    requires 0 <= offset <= |s|
    ensures IsLowerIndex(LineStarts(s), offset, |LineStarts(s[..offset])| - 1)
  {
    var before, starts := LineStarts(s[..offset]), LineStarts(s);
    LineStartsWithin(s[..offset]);
    LineStartsPrefix(s, offset);
    var j := |before| - 1;
    assert starts[j] == before[j];
  }

  /** A query resolves through whichever range of the line-start index holds it. */
  lemma ResolveAtLowerIndex(s: seq<char>, offset: int, i: int)
    requires 0 <= offset <= |s|
    requires IsLowerIndex(LineStarts(s), offset, i)
    ensures Resolve(s, offset) == Ok(LineColumn(i + 1, offset - LineStarts(s)[i] + 1))
  {
    var before, starts := LineStarts(s[..offset]), LineStarts(s);
    assert i == |before| - 1 by {
      LowerIndexOfPrefix(s, offset);
      LineStartsIncreasing(s);
      LowerIndexUnique(starts, offset, i, |before| - 1);
    }
    assert before[i] == starts[i] by {
      LineStartsPrefix(s, offset);
    }
  }

  /**
   * Line i, as split out of the document, starts at entry i of the index,
   * ends within the document, and its '\n' is followed by entry i + 1.
   */
  lemma LineExtent(s: seq<char>, i: int)
    requires 0 <= i < |Split(s)|
    ensures |LineStarts(s)| == |Split(s)|
    ensures 0 <= LineStarts(s)[i] && LineStarts(s)[i] + |Split(s)[i]| <= |s|
    ensures i + 1 < |Split(s)| ==> LineStarts(s)[i + 1] == LineStarts(s)[i] + |Split(s)[i]| + 1
  {
    var lines := Split(s);
    SplitStarts(s);
    PrefixStartsAt(lines, i);
    assert lines[..i + 1][..i] == lines[..i];
    LineStartsWithin(s);
    if i + 1 < |lines| {
      PrefixStartsAt(lines, i + 1);
    } else {
      assert lines[..i + 1] == lines;
    }
  }

  /**
   * Every position on a line resolves onto that line: for the line that
   * starts at S and has L characters, offset S + k gives column k + 1 for
   * 0 <= k <= L (k == L is the '\n', or the end of the document).
   */
  lemma LineSpan(s: seq<char>, i: int, k: int)
    requires 0 <= i < |Split(s)|
    requires 0 <= k <= |Split(s)[i]|
    ensures |LineStarts(s)| == |Split(s)|
    ensures Resolve(s, LineStarts(s)[i] + k) == Ok(LineColumn(i + 1, k + 1))
  {
    var starts := LineStarts(s);
    LineExtent(s, i);
    assert IsLowerIndex(starts, starts[i] + k, i);
    ResolveAtLowerIndex(s, starts[i] + k, i);
  }

  /** Offset 0 is the first column of the first line, in every document. */
  lemma ResolveAtStart(s: seq<char>)
    ensures Resolve(s, 0) == Ok(LineColumn(1, 1))
  {
    assert s[..0] == [];
  }

  /** The end of the document is a valid offset and lands on the last line, just past its last character. */
  lemma ResolveAtEnd(s: seq<char>)
    ensures var starts := LineStarts(s);
      Resolve(s, |s|) == Ok(LineColumn(|starts|, |s| - starts[|starts| - 1] + 1))
  {
    assert s[..|s|] == s;
  }

  /** Resolution is monotone: a later offset never resolves to an earlier position. */
  lemma ResolveMonotone(s: seq<char>, a: int, b: int)
    requires 0 <= a <= b <= |s|
    ensures Resolve(s, a).Ok? && Resolve(s, b).Ok?
    ensures AtOrBefore(Resolve(s, a).value, Resolve(s, b).value)
  {
    var t := s[..b];
    assert t[..a] == s[..a];
    LineStartsPrefix(t, a);
  }

  // ---------------------------------------------------------------------
  // The finder
  // ---------------------------------------------------------------------

  /** One document with its line-start index, built once and only read afterwards. */
  class LineColumnFinder {
    const origin: int := 1
    const str: seq<char>
    const lineToIndex: array<int>

    ghost predicate Valid()
      reads lineToIndex
    {
      lineToIndex[..] == LineStarts(str)
    }

    constructor (str: seq<char>)
      ensures this.str == str
      ensures Valid() && fresh(lineToIndex)
    {
      this.str := str;
      var built := BuildLineToIndex(str);
      lineToIndex := built;
    }

    /** index(offset): reject offsets outside [0, |str|], otherwise search the line starts. */
    method Index(index: int) returns (r: Result<LineColumn>)
      requires Valid()
      ensures r == Resolve(str, index)
    {
      if index < 0 {
        return Err(Negative(index));
      }
      if index > |str| {
        return Err(TooLarge(index, |str|));
      }

      LineStartsIncreasing(str);
      var line := FindLowerIndexInRangeArray(index, lineToIndex);
      ResolveAtLowerIndex(str, index, line);
      r := Ok(LineColumn(line + origin, index - lineToIndex[line] + origin));
    }
  }

  // ---------------------------------------------------------------------
  // Worked examples
  // ---------------------------------------------------------------------

  /** Appending a run of text without '\n' starts no new line. */
  lemma {:induction false} LineStartsAppendText(a: seq<char>, text: seq<char>)
    requires '\n' !in text
    ensures LineStarts(a + text) == LineStarts(a)
    decreases |text|
  {
    if |text| > 0 {
      var t' := text[..|text| - 1];
      assert (a + text)[..|a + text| - 1] == a + t';
      assert (a + text)[|a + text| - 1] == text[|text| - 1];
      LineStartsAppendText(a, t');
    } else {
      assert a + text == a;
    }
  }

  /** Appending a line of text and its '\n' starts exactly one new line, just after it. */
  lemma LineStartsAppendLine(a: seq<char>, text: seq<char>)
    requires '\n' !in text
    ensures LineStarts(a + text + ['\n']) == LineStarts(a) + [|a| + |text| + 1]
  {
    LineStartsAppendText(a, text);
    assert (a + text + ['\n'])[..|a + text|] == a + text;
  }

  /** The document of the test suite: five lines, 49 characters. */
  function TestDocument(): string {
    "ABCDEFG\n" + "HIJKLMNOPQRSTU\n" + "VWXYZ\n" + "日本語の文字\n" + "English words"
  }

  lemma TestDocumentLineStarts()
    ensures |TestDocument()| == 49
    ensures LineStarts(TestDocument()) == [0, 8, 23, 29, 36]
  {
    var l1, l2, l3, l4, l5 := "ABCDEFG", "HIJKLMNOPQRSTU", "VWXYZ", "日本語の文字", "English words";
    var d1 := l1 + "\n";
    var d2 := d1 + l2 + "\n";
    var d3 := d2 + l3 + "\n";
    var d4 := d3 + l4 + "\n";
    assert LineStarts(d1) == [0, 8] by {
      LineStartsAppendLine([], l1);
      assert [] + l1 + "\n" == d1;
    }
    assert LineStarts(d2) == [0, 8, 23] by { LineStartsAppendLine(d1, l2); }
    assert LineStarts(d3) == [0, 8, 23, 29] by { LineStartsAppendLine(d2, l3); }
    assert LineStarts(d4) == [0, 8, 23, 29, 36] by { LineStartsAppendLine(d3, l4); }
    assert LineStarts(d4 + l5) == [0, 8, 23, 29, 36] by { LineStartsAppendText(d4, l5); }
    assert TestDocument() == d4 + l5;
  }

  /** The cases of the test suite, the end of the document, and offsets just outside it. */
  lemma TestDocumentExamples()
    ensures Resolve(TestDocument(), 0) == Ok(LineColumn(1, 1))
    ensures Resolve(TestDocument(), 3) == Ok(LineColumn(1, 4))
    ensures Resolve(TestDocument(), 36) == Ok(LineColumn(5, 1))
    ensures Resolve(TestDocument(), 49) == Ok(LineColumn(5, 14))
    ensures Resolve(TestDocument(), -1) == Err(Negative(-1))
    ensures Resolve(TestDocument(), 50) == Err(TooLarge(50, 49))
  {
    TestDocumentLineStarts();
    var doc := TestDocument();
    ResolveAtLowerIndex(doc, 0, 0);
    ResolveAtLowerIndex(doc, 3, 0);
    ResolveAtLowerIndex(doc, 36, 4);
    ResolveAtLowerIndex(doc, 49, 4);
  }

  /** The empty document has one empty line: offset 0 is its start, offset 1 is out of range. */
  lemma EmptyDocumentExamples()
    ensures LineStarts([]) == [0]
    ensures Resolve([], 0) == Ok(LineColumn(1, 1))
    ensures Resolve([], 1) == Err(TooLarge(1, 0))
  {
    ResolveAtLowerIndex([], 0, 0);
  }
}
