/**
 * Advent of Code 2023, day 3 (gear ratios). The engine schematic is a list of lines of
 * equal width. The numbers are the matches of the regular expression -?\d+ (an optional
 * minus sign and a maximal run of digits), each recorded with its line and half-open span;
 * the signs are the matches of \W, every character that is not a letter, a digit or '_'
 * ('.' and '-' included). A number is a part number when a sign sits in one of the cells
 * around it, and the answer is the sum of the part numbers.
 */
module Schematic {
  import opened Wrappers

  /** A cell (line, column) of the schematic. */
  type Cell = (int, int)

  /** A number's place: its line and the half-open column span (begin, end). */
  type Place = (int, (int, int))

  predicate IsDigit(c: char) {
    '0' <= c <= '9'
  }

  /** The characters \w matches: ASCII letters, digits and '_'. */
  predicate IsWord(c: char) {
    ('a' <= c <= 'z') || ('A' <= c <= 'Z') || IsDigit(c) || c == '_'
  }

  // ---------------------------------------------------------------------------
  // The matches of -?\d+ in one line
  // ---------------------------------------------------------------------------

  /** The end of the run of digits that starts at i. */
  function RunEnd(s: string, i: nat): (e: nat)
    requires i <= |s|
    ensures i <= e <= |s|
    ensures forall k :: i <= k < e ==> IsDigit(s[k])
    ensures e == |s| || !IsDigit(s[e])
    decreases |s| - i
  {
    if i < |s| && IsDigit(s[i]) then RunEnd(s, i + 1) else i
  }

  /** Where the match starting at i ends, if one starts there: digits, or a '-' followed by
    * digits; the run of digits is taken whole. */
  function MatchEnd(s: string, i: nat): (r: Option<nat>)
    requires i < |s|
    ensures r.Some? ==> i < r.value <= |s|
  {
    if IsDigit(s[i]) then Some(RunEnd(s, i))
    else if s[i] == '-' && i + 1 < |s| && IsDigit(s[i + 1]) then Some(RunEnd(s, i + 1))
    else None
  }

  /** The spans re.finditer reports from position i on: leftmost first, never overlapping. */
  function Spans(s: string, i: nat): seq<(int, int)>
    requires i <= |s|
    decreases |s| - i
  {
    if i == |s| then []
    else
      match MatchEnd(s, i)
      case Some(e) => [(i, e)] + Spans(s, e)
      case None => Spans(s, i + 1)
  }

  /** An optional '-' followed by at least one digit. */
  predicate Numeral(t: string) {
    |t| >= 1 && (IsDigit(t[0]) || (t[0] == '-' && |t| >= 2)) &&
    forall k :: 1 <= k < |t| ==> IsDigit(t[k])
  }

  predicate WellPlaced(s: string, i: nat, span: (int, int)) {
    i <= span.0 < span.1 <= |s| && Numeral(s[span.0..span.1]) &&
    (span.1 == |s| || !IsDigit(s[span.1]))
  }

  /** Every span lies at or after i, holds a numeral and cannot be extended by a digit, and
    * the spans come in order without overlapping. */
  lemma {:induction false} SpansShape(s: string, i: nat)
    requires i <= |s|
    ensures forall j :: 0 <= j < |Spans(s, i)| ==> WellPlaced(s, i, Spans(s, i)[j])
    ensures forall j :: 0 <= j < |Spans(s, i)| - 1 ==> Spans(s, i)[j].1 <= Spans(s, i)[j + 1].0
    decreases |s| - i
  {
    if i < |s| {
      match MatchEnd(s, i)
      case Some(e) =>
        SpansShape(s, e);
        var rest := Spans(s, e);
        var sp := Spans(s, i);
        assert sp == [(i, e)] + rest;
        assert Numeral(s[i..e]);
        forall j | 1 <= j < |sp|
          ensures WellPlaced(s, i, sp[j])
        {
          assert sp[j] == rest[j - 1];
        }
      case None =>
        SpansShape(s, i + 1);
    }
  }

  /** Every digit of the line belongs to one of the spans. */
  lemma {:induction false} DigitsCovered(s: string, i: nat, k: nat)
    requires i <= k < |s| && IsDigit(s[k])
    ensures exists j :: 0 <= j < |Spans(s, i)| && Spans(s, i)[j].0 <= k < Spans(s, i)[j].1
    decreases |s| - i
  {
    match MatchEnd(s, i)
    case Some(e) =>
      var sp := Spans(s, i);
      if k < e {
        assert sp[0] == (i, e);
      } else {
        DigitsCovered(s, e, k);
        var j :| 0 <= j < |Spans(s, e)| && Spans(s, e)[j].0 <= k < Spans(s, e)[j].1;
        assert sp[j + 1] == Spans(s, e)[j];
      }
    case None =>
      assert k != i;
      DigitsCovered(s, i + 1, k);
      assert Spans(s, i) == Spans(s, i + 1);
  }

  function DigitsValue(t: string): nat
    requires forall k :: 0 <= k < |t| ==> IsDigit(t[k])
  {
    if t == [] then 0
    else
      assert IsDigit(t[|t| - 1]);
      10 * DigitsValue(t[..|t| - 1]) + (t[|t| - 1] as int - '0' as int)
  }

  /** int(match.group()): negative when the numeral starts with '-'. */
  function NumeralValue(t: string): (v: int)
    requires Numeral(t)
    ensures v < 0 ==> t[0] == '-'
  {
    if t[0] == '-' then 0 - DigitsValue(t[1..]) else DigitsValue(t)
  }

  /** The values of the matches of one line, in order. */
  function LineNumbers(s: string): (vs: seq<int>)
    ensures |vs| == |Spans(s, 0)|
  {
    SpansShape(s, 0);
    var sp := Spans(s, 0);
    seq(|sp|, j requires 0 <= j < |sp| => NumeralValue(s[sp[j].0..sp[j].1]))
  }

  /** The places of the matches of line l. */
  function LinePlaces(s: string, l: int): (ps: seq<Place>)
    ensures |ps| == |Spans(s, 0)|
    ensures forall j :: 0 <= j < |ps| ==> ps[j] == (l, Spans(s, 0)[j])
  {
    var sp := Spans(s, 0);
    seq(|sp|, j requires 0 <= j < |sp| => (l, sp[j]))
  }

  /** The numbers of the whole schematic, line by line. */
  function GridNumbers(grid: seq<string>): seq<int>
  {
    if grid == [] then [] else GridNumbers(grid[..|grid| - 1]) + LineNumbers(grid[|grid| - 1])
  }

  function GridPlaces(grid: seq<string>): (ps: seq<Place>)
    ensures |ps| == |GridNumbers(grid)|
  {
    if grid == [] then [] else GridPlaces(grid[..|grid| - 1]) + LinePlaces(grid[|grid| - 1], |grid| - 1)
  }

  /** A place is exactly a line index with one of the spans of that line. */
  lemma {:induction false} GridPlacesMeaning(grid: seq<string>)
    ensures forall p :: p in GridPlaces(grid) <==> 0 <= p.0 < |grid| && p.1 in Spans(grid[p.0], 0)
  {
    if grid != [] {
      var front := grid[..|grid| - 1];
      GridPlacesMeaning(front);
      var l := |grid| - 1;
      forall p
        ensures p in GridPlaces(grid) <==> 0 <= p.0 < |grid| && p.1 in Spans(grid[p.0], 0)
      {
        var last := LinePlaces(grid[l], l);
        if p in last {
          var j :| 0 <= j < |last| && last[j] == p;
          assert Spans(grid[l], 0)[j] == p.1;
        }
        if p.0 == l && p.1 in Spans(grid[l], 0) {
          var j :| 0 <= j < |Spans(grid[l], 0)| && Spans(grid[l], 0)[j] == p.1;
          assert last[j] == p;
        }
        if 0 <= p.0 < l {
          assert grid[p.0] == front[p.0];
        }
      }
    }
  }

  /** extract_nmb_idx: for each line in order, each match's value and place are appended. */
  method ExtractNumbers(grid: seq<string>) returns (numbers: seq<int>, places: seq<Place>)
    ensures numbers == GridNumbers(grid) && places == GridPlaces(grid)
  {
    numbers, places := [], [];
    var lineIdx := 0;
    while lineIdx < |grid|
      invariant 0 <= lineIdx <= |grid|
      invariant numbers == GridNumbers(grid[..lineIdx]) && places == GridPlaces(grid[..lineIdx])
    {
      var line := grid[lineIdx];
      var spans := Spans(line, 0);
      SpansShape(line, 0);
      var values := LineNumbers(line);
      var k := 0;
      while k < |spans|
        invariant 0 <= k <= |spans|
        invariant numbers == GridNumbers(grid[..lineIdx]) + values[..k]
        invariant places == GridPlaces(grid[..lineIdx]) + LinePlaces(line, lineIdx)[..k]
      {
        assert values[k] == NumeralValue(line[spans[k].0..spans[k].1]);
        numbers := numbers + [NumeralValue(line[spans[k].0..spans[k].1])];
        places := places + [(lineIdx, spans[k])];
        assert values[..k + 1] == values[..k] + [values[k]];
        assert LinePlaces(line, lineIdx)[..k + 1] == LinePlaces(line, lineIdx)[..k] + [(lineIdx, spans[k])];
        k := k + 1;
      }
      assert values[..k] == values && LinePlaces(line, lineIdx)[..k] == LinePlaces(line, lineIdx);
      assert grid[..lineIdx + 1][..lineIdx] == grid[..lineIdx];
      lineIdx := lineIdx + 1;
    }
    assert grid[..lineIdx] == grid;
  }

  // ---------------------------------------------------------------------------
  // The matches of \W
  // ---------------------------------------------------------------------------

  /** The columns of the first k characters of s that \W matches, in order. */
  function SignColumns(s: string, k: nat): seq<int>
    requires k <= |s|
  {
    if k == 0 then []
    else SignColumns(s, k - 1) + (if IsWord(s[k - 1]) then [] else [k - 1])
  }

  function GridSigns(grid: seq<string>): seq<Cell>
  {
    if grid == [] then []
    else
      var l := |grid| - 1;
      var cols := SignColumns(grid[l], |grid[l]|);
      GridSigns(grid[..l]) + seq(|cols|, j requires 0 <= j < |cols| => (l, cols[j]))
  }

  lemma {:induction false} SignColumnsMeaning(s: string, k: nat)
    requires k <= |s|
    ensures forall c :: c in SignColumns(s, k) <==> 0 <= c < k && !IsWord(s[c])
  {
    if k > 0 {
      SignColumnsMeaning(s, k - 1);
    }
  }

  /** A sign cell is exactly a cell of the schematic holding a character that is not a
    * letter, a digit or '_'. */
  lemma {:induction false} GridSignsMeaning(grid: seq<string>)
    ensures forall cell :: cell in GridSigns(grid) <==>
      0 <= cell.0 < |grid| && 0 <= cell.1 < |grid[cell.0]| && !IsWord(grid[cell.0][cell.1])
  {
    if grid != [] {
      var l := |grid| - 1;
      var front := grid[..l];
      GridSignsMeaning(front);
      var cols := SignColumns(grid[l], |grid[l]|);
      SignColumnsMeaning(grid[l], |grid[l]|);
      var last := seq(|cols|, j requires 0 <= j < |cols| => (l, cols[j]));
      forall cell
        ensures cell in GridSigns(grid) <==>
          0 <= cell.0 < |grid| && 0 <= cell.1 < |grid[cell.0]| && !IsWord(grid[cell.0][cell.1])
      {
        if cell in last {
          var j :| 0 <= j < |last| && last[j] == cell;
          assert cols[j] in cols;
        }
        if cell.0 == l && 0 <= cell.1 < |grid[l]| && !IsWord(grid[l][cell.1]) {
          var j :| 0 <= j < |cols| && cols[j] == cell.1;
          assert last[j] == cell;
        }
        if 0 <= cell.0 < l {
          assert grid[cell.0] == front[cell.0];
        }
      }
    }
  }

  /** signs[j] is the character of the schematic at cells[j]. */
  predicate SignsAtCells(grid: seq<string>, signs: seq<char>, cells: seq<Cell>)
    requires |signs| == |cells|
  {
    forall j :: 0 <= j < |cells| ==>
      0 <= cells[j].0 < |grid| && 0 <= cells[j].1 < |grid[cells[j].0]| &&
      signs[j] == grid[cells[j].0][cells[j].1]
  }

  /** extract_sign_idx: for each line in order, each character \W matches is recorded with
    * its cell. The compiled signifier pattern plays no part. */
  method ExtractSigns(grid: seq<string>) returns (signs: seq<char>, cells: seq<Cell>)
    ensures cells == GridSigns(grid)
    ensures |signs| == |cells| && SignsAtCells(grid, signs, cells)
    ensures forall j :: 0 <= j < |cells| ==> !IsWord(signs[j])
  {
    signs, cells := [], [];
    var lineIdx := 0;
    while lineIdx < |grid|
      invariant 0 <= lineIdx <= |grid|
      invariant cells == GridSigns(grid[..lineIdx])
      invariant |signs| == |cells| && SignsAtCells(grid, signs, cells)
      invariant forall j :: 0 <= j < |cells| ==> !IsWord(signs[j])
    {
      var line := grid[lineIdx];
      var k := 0;
      var found: seq<Cell> := [];
      while k < |line|
        invariant 0 <= k <= |line|
        invariant line == grid[lineIdx]
        invariant |signs| == |cells| && SignsAtCells(grid, signs, cells)
        invariant forall j :: 0 <= j < |cells| ==> !IsWord(signs[j])
        invariant cells == GridSigns(grid[..lineIdx]) + found
        invariant var cols := SignColumns(line, k);
          found == seq(|cols|, j requires 0 <= j < |cols| => (lineIdx, cols[j]))
      {
        if !IsWord(line[k]) {
          signs := signs + [line[k]];
          cells := cells + [(lineIdx, k)];
          found := found + [(lineIdx, k)];
        }
        k := k + 1;
      }
      assert grid[..lineIdx + 1][..lineIdx] == grid[..lineIdx];
      lineIdx := lineIdx + 1;
    }
    assert grid[..lineIdx] == grid;
  }

  // ---------------------------------------------------------------------------
  // compute_valid_idx and valid_nmb_sum
  // ---------------------------------------------------------------------------

  /** compute_valid_idx: the cells of the lines l-1..l+1 and the columns begin-1..end that lie
    * inside the schematic, less the number's own cells (l, begin..end-1). */
  function ValidCells(nmbLines: int, lineLength: int, place: Place): (cells: set<Cell>)
    ensures forall cell :: cell in cells <==>
      0 <= cell.0 < nmbLines && 0 <= cell.1 < lineLength &&
      place.0 - 1 <= cell.0 <= place.0 + 1 && place.1.0 - 1 <= cell.1 <= place.1.1 &&
      !(cell.0 == place.0 && place.1.0 <= cell.1 < place.1.1)
  {
    var l, b, e := place.0, place.1.0, place.1.1;
    var around := set r, c | 0 <= r < nmbLines && l - 1 <= r <= l + 1 &&
                             0 <= c < lineLength && b - 1 <= c < e + 1 :: (r, c);
    var own := set c | b <= c < e :: (l, c);
    around - own
  }

  /** A number counts when one of its valid cells is a sign cell. */
  predicate IsPart(nmbLines: int, lineLength: int, place: Place, signCells: seq<Cell>) {
    exists cell :: cell in ValidCells(nmbLines, lineLength, place) && cell in signCells
  }

  /** The sum over the first k pairs of zip(numbers, places) of the part numbers. */
  function PartSum(numbers: seq<int>, places: seq<Place>, signCells: seq<Cell>,
                   nmbLines: int, lineLength: int, k: nat): int
    requires k <= |numbers| && k <= |places|
  {
    if k == 0 then 0
    else
      PartSum(numbers, places, signCells, nmbLines, lineLength, k - 1) +
      (if IsPart(nmbLines, lineLength, places[k - 1], signCells) then numbers[k - 1] else 0)
  }

  /** The loop over one number's valid cells: it stops at the first sign cell, so the
    * number is added once however many signs surround it. */
  method AddIfPart(sum: int, number: int, cells: set<Cell>, signCells: seq<Cell>) returns (total: int)
    ensures total == sum + (if exists cell :: cell in cells && cell in signCells then number else 0)
  {
    total := sum;
    var remaining := cells;
    while remaining != {}
      invariant remaining <= cells
      invariant forall cell :: cell in cells - remaining ==> cell !in signCells
      invariant total == sum
      decreases |remaining|
    {
      var cell :| cell in remaining;
      if cell in signCells {
        total := total + number;
        break;
      }
      remaining := remaining - {cell};
    }
    if total == sum && number != 0 {
      assert remaining == {};
      assert forall cell :: cell in cells ==> cell !in signCells;
    }
  }

  /** valid_nmb_sum: over zip(numbers, places), each number adjacent to a sign is added once. */
  method ValidNumberSum(numbers: seq<int>, places: seq<Place>, signCells: seq<Cell>,
                        nmbLines: int, lineLength: int) returns (sum: int)
    ensures var n := if |numbers| <= |places| then |numbers| else |places|;
      sum == PartSum(numbers, places, signCells, nmbLines, lineLength, n)
  {
    var n := if |numbers| <= |places| then |numbers| else |places|;
    sum := 0;
    var i := 0;
    while i < n
      invariant 0 <= i <= n
      invariant sum == PartSum(numbers, places, signCells, nmbLines, lineLength, i)
    {
      var cells := ValidCells(nmbLines, lineLength, places[i]);
      sum := AddIfPart(sum, numbers[i], cells, signCells);
      i := i + 1;
    }
  }

  /** With non-negative numbers the sum lies between 0 and the sum of all numbers, and reaches
    * the top when every number is a part. */
  lemma {:induction false} PartSumBounds(numbers: seq<int>, places: seq<Place>, signCells: seq<Cell>,
                                         nmbLines: int, lineLength: int, k: nat)
    requires k <= |numbers| && k <= |places|
    requires forall j :: 0 <= j < k ==> numbers[j] >= 0
    ensures 0 <= PartSum(numbers, places, signCells, nmbLines, lineLength, k) <= Total(numbers, k)
    ensures (forall j :: 0 <= j < k ==> IsPart(nmbLines, lineLength, places[j], signCells)) ==>
      PartSum(numbers, places, signCells, nmbLines, lineLength, k) == Total(numbers, k)
  {
    if k > 0 {
      PartSumBounds(numbers, places, signCells, nmbLines, lineLength, k - 1);
    }
  }

  function Total(numbers: seq<int>, k: nat): int
    requires k <= |numbers|
  {
    if k == 0 then 0 else Total(numbers, k - 1) + numbers[k - 1]
  }

  /** The cells around a place that hold a sign: above, below, beside or diagonally, inside
    * the schematic whose width is that of its first line. */
  predicate SignAround(grid: seq<string>, place: Place, r: int, c: int)
    requires |grid| >= 1
  {
    0 <= r < |grid| && 0 <= c < |grid[0]| && c < |grid[r]| && !IsWord(grid[r][c]) &&
    place.0 - 1 <= r <= place.0 + 1 && place.1.0 - 1 <= c <= place.1.1 &&
    !(r == place.0 && place.1.0 <= c < place.1.1)
  }

  lemma PartHasSign(grid: seq<string>, place: Place)
    requires |grid| >= 1 && IsPart(|grid|, |grid[0]|, place, GridSigns(grid))
    ensures exists r, c :: SignAround(grid, place, r, c)
  {
    GridSignsMeaning(grid);
    var cell :| cell in ValidCells(|grid|, |grid[0]|, place) && cell in GridSigns(grid);
    assert SignAround(grid, place, cell.0, cell.1);
  }

  lemma SignMakesPart(grid: seq<string>, place: Place, r: int, c: int)
    requires |grid| >= 1 && SignAround(grid, place, r, c)
    ensures IsPart(|grid|, |grid[0]|, place, GridSigns(grid))
  {
    GridSignsMeaning(grid);
    assert (r, c) in ValidCells(|grid|, |grid[0]|, place) && (r, c) in GridSigns(grid);
  }

  /** A number counts exactly when a sign lies in one of the cells around it. */
  lemma IsPartMeaning(grid: seq<string>, place: Place)
    requires |grid| >= 1
    ensures IsPart(|grid|, |grid[0]|, place, GridSigns(grid)) <==> exists r, c :: SignAround(grid, place, r, c)
  {
    if IsPart(|grid|, |grid[0]|, place, GridSigns(grid)) {
      PartHasSign(grid, place);
    }
    if exists r, c :: SignAround(grid, place, r, c) {
      var r, c :| SignAround(grid, place, r, c);
      SignMakesPart(grid, place, r, c);
    }
  }

  /** The script: the line width is that of the first line (an IndexError for an empty
    * schematic), the numbers and signs are extracted and the part numbers summed. */
  method PartNumberSum(grid: seq<string>) returns (r: Result<int>)
    ensures grid == [] ==> r == Err(IndexError)
    ensures grid != [] ==> r == Ok(PartSum(GridNumbers(grid), GridPlaces(grid), GridSigns(grid),
                                           |grid|, |grid[0]|, |GridNumbers(grid)|))
  {
    if grid == [] {
      return Err(IndexError);
    }
    var lineLength := |grid[0]|;
    var nmbLines := |grid|;
    var numbers, places := ExtractNumbers(grid);
    var signs, signCells := ExtractSigns(grid);
    GridPlacesMeaning(grid);
    var sum := ValidNumberSum(numbers, places, signCells, nmbLines, lineLength);
    r := Ok(sum);
  }
}
