/**
 * Advent of Code 2023, day 2 (cube conundrum). A game line "Game n: 3 blue, 4 red; 1 red"
 * is cut into draws and items, each draw becomes a row [blue, green, red] of cube counts,
 * a game is possible when no column exceeds its limit (14 blue, 13 green, 12 red), and the
 * answers are the sum of the 1-based positions of the possible games and the sum over games
 * of the product of the column-wise maxima. The lines are given as a list; reading the file
 * is not part of the model.
 */
module CubeGame {
  import opened Wrappers

  // ---------------------------------------------------------------------------
  // str.split with a one-character separator
  // ---------------------------------------------------------------------------

  /** s.split(sep): the pieces between the separators, empty ones included. */
  function Split(s: string, sep: char): (parts: seq<string>)
    ensures |parts| >= 1
    decreases |s|
  {
    if s == [] then [""]
    else
      var rest := Split(s[1..], sep);
      if s[0] == sep then [""] + rest else [[s[0]] + rest[0]] + rest[1..]
  }

  /** sep.join(parts). */
  function Join(parts: seq<string>, sep: char): string
    requires |parts| >= 1
  {
    if |parts| == 1 then parts[0] else parts[0] + [sep] + Join(parts[1..], sep)
  }

  predicate Free(s: string, sep: char) {
    forall i :: 0 <= i < |s| ==> s[i] != sep
  }

  /** No piece of a split holds the separator. */
  lemma {:induction false} SplitFree(s: string, sep: char)
    ensures forall i :: 0 <= i < |Split(s, sep)| ==> Free(Split(s, sep)[i], sep)
    decreases |s|
  {
    if s != [] {
      SplitFree(s[1..], sep);
      var rest := Split(s[1..], sep);
      if s[0] != sep {
        assert Free(rest[0], sep);
        assert forall k :: 1 <= k < |Split(s, sep)| ==> Split(s, sep)[k] == rest[k];
      } else {
        assert forall k :: 1 <= k < |Split(s, sep)| ==> Split(s, sep)[k] == rest[k - 1];
      }
    }
  }

  /** Joining the pieces of a split gives the text back. */
  lemma {:induction false} SplitJoin(s: string, sep: char)
    ensures Join(Split(s, sep), sep) == s
    decreases |s|
  {
    if s != [] {
      SplitJoin(s[1..], sep);
      var rest := Split(s[1..], sep);
      if s[0] == sep {
        assert ([""] + rest)[1..] == rest;
      } else if |rest| == 1 {
      } else {
        var parts := Split(s, sep);
        assert parts[1..] == rest[1..];
        calc {
          Join(parts, sep);
          ([s[0]] + rest[0]) + [sep] + Join(rest[1..], sep);
          [s[0]] + (rest[0] + [sep] + Join(rest[1..], sep));
          [s[0]] + Join(rest, sep);
          [s[0]] + s[1..];
        }
      }
    }
  }

  /** Splitting a join of separator-free pieces gives the pieces back. */
  lemma {:induction false} JoinSplit(parts: seq<string>, sep: char)
    requires |parts| >= 1 && forall i :: 0 <= i < |parts| ==> Free(parts[i], sep)
    ensures Split(Join(parts, sep), sep) == parts
    decreases |parts|
  {
    if |parts| == 1 {
      FreeSplit(parts[0], sep);
    } else {
      JoinSplit(parts[1..], sep);
      SplitAfterFree(parts[0], Join(parts[1..], sep), sep);
      assert [parts[0]] + parts[1..] == parts;
    }
  }

  /** Text without the separator splits into itself. */
  lemma {:induction false} FreeSplit(s: string, sep: char)
    requires Free(s, sep)
    ensures Split(s, sep) == [s]
    decreases |s|
  {
    if s != [] {
      FreeSplit(s[1..], sep);
      assert [s[0]] + s[1..] == s;
    }
  }

  /** A separator-free head followed by the separator is cut off as the first piece. */
  lemma {:induction false} SplitAfterFree(a: string, b: string, sep: char)
    requires Free(a, sep)
    ensures Split(a + [sep] + b, sep) == [a] + Split(b, sep)
    decreases |a|
  {
    if a == [] {
      assert a + [sep] + b == [sep] + b;
      assert ([sep] + b)[1..] == b;
    } else {
      SplitAfterFree(a[1..], b, sep);
      var t := a + [sep] + b;
      assert t[0] == a[0] && t[1..] == a[1..] + [sep] + b;
      assert [a[0]] + a[1..] == a;
    }
  }

  // ---------------------------------------------------------------------------
  // format_line
  // ---------------------------------------------------------------------------

  /** One draw item " 3 blue" as the tokens after the first space: ["3", "blue"]. */
  function ItemTokens(item: string): seq<string>
  {
    Split(item, ' ')[1..]
  }

  /** The text between the first and the second ':' (the second part of the split on ':',
    * an IndexError without one), split on ';', each draw
    * split on ',', each item into its tokens. */
  function FormatLine(line: string): (r: Result<seq<seq<seq<string>>>>)
    ensures r.Err? <==> Free(line, ':')
    ensures r.Err? ==> r.error == IndexError
    ensures r.Ok? ==> |Split(line, ':')| >= 2 && |r.value| == |Split(Split(line, ':')[1], ';')|
  {
    var parts := Split(line, ':');
    FreeSplitLength(line, ':');
    if |parts| < 2 then Err(IndexError)
    else
      var draws := Split(parts[1], ';');
      Ok(seq(|draws|, i requires 0 <= i < |draws| =>
        var items := Split(draws[i], ',');
        seq(|items|, j requires 0 <= j < |items| => ItemTokens(items[j]))))
  }

  /** A split has one piece exactly when the separator does not occur. */
  lemma {:induction false} FreeSplitLength(s: string, sep: char)
    ensures |Split(s, sep)| == 1 <==> Free(s, sep)
    decreases |s|
  {
    if s != [] {
      FreeSplitLength(s[1..], sep);
      if Free(s, sep) {
        assert Free(s[1..], sep);
      }
      if s[0] != sep && Free(s[1..], sep) {
        assert Free(s, sep);
      }
    }
  }

  /** The "Game n" before the first ':' plays no part: the games are told apart only by
    * their position in the input. */
  lemma GameLabelIgnored(label1: string, label2: string, rest: string)
    requires Free(label1, ':') && Free(label2, ':')
    ensures FormatLine(label1 + ":" + rest) == FormatLine(label2 + ":" + rest)
  {
    SplitAfterFree(label1, rest, ':');
    SplitAfterFree(label2, rest, ':');
  }

  /** A token a line can carry: no space, comma, semicolon or colon in it. */
  predicate Token(t: string) {
    Free(t, ' ') && Free(t, ',') && Free(t, ';') && Free(t, ':')
  }

  /** The tokens of every item of every draw are Tokens; every draw has an item. */
  predicate Renderable(draws: seq<seq<seq<string>>>) {
    |draws| >= 1 &&
    (forall i :: 0 <= i < |draws| ==> |draws[i]| >= 1) &&
    (forall i, j, k :: 0 <= i < |draws| && 0 <= j < |draws[i]| && 0 <= k < |draws[i][j]| ==> Token(draws[i][j][k]))
  }

  /** An item written as the puzzle writes it: " 3 blue". */
  function RenderItem(item: seq<string>): string
  {
    Join([""] + item, ' ')
  }

  /** A draw: its items joined by ",". */
  function RenderDraw(draw: seq<seq<string>>): string
    requires |draw| >= 1
  {
    Join(seq(|draw|, j requires 0 <= j < |draw| => RenderItem(draw[j])), ',')
  }

  /** A game line: the title, ":", then the draws joined by ";". */
  function Render(title: string, draws: seq<seq<seq<string>>>): string
    requires Renderable(draws)
  {
    title + ":" + Join(seq(|draws|, i requires 0 <= i < |draws| => RenderDraw(draws[i])), ';')
  }

  /** A join of pieces free of c, with a separator other than c, is free of c. */
  lemma {:induction false} JoinFree(parts: seq<string>, sep: char, c: char)
    requires |parts| >= 1 && sep != c && forall i :: 0 <= i < |parts| ==> Free(parts[i], c)
    ensures Free(Join(parts, sep), c)
    decreases |parts|
  {
    if |parts| > 1 {
      JoinFree(parts[1..], sep, c);
    }
  }

  lemma ItemRoundTrip(item: seq<string>)
    requires forall k :: 0 <= k < |item| ==> Token(item[k])
    ensures ItemTokens(RenderItem(item)) == item
    ensures Free(RenderItem(item), ',') && Free(RenderItem(item), ';') && Free(RenderItem(item), ':')
  {
    var parts := [""] + item;
    assert forall k :: 1 <= k < |parts| ==> parts[k] == item[k - 1];
    JoinSplit(parts, ' ');
    assert parts[1..] == item;
    JoinFree(parts, ' ', ',');
    JoinFree(parts, ' ', ';');
    JoinFree(parts, ' ', ':');
  }

  lemma DrawRoundTrip(draw: seq<seq<string>>)
    requires |draw| >= 1
    requires forall j, k :: 0 <= j < |draw| && 0 <= k < |draw[j]| ==> Token(draw[j][k])
    ensures var items := Split(RenderDraw(draw), ',');
      |items| == |draw| && forall j :: 0 <= j < |draw| ==> ItemTokens(items[j]) == draw[j]
    ensures Free(RenderDraw(draw), ';') && Free(RenderDraw(draw), ':')
  {
    var items := seq(|draw|, j requires 0 <= j < |draw| => RenderItem(draw[j]));
    forall j | 0 <= j < |draw|
      ensures ItemTokens(items[j]) == draw[j]
      ensures Free(items[j], ',') && Free(items[j], ';') && Free(items[j], ':')
    {
      ItemRoundTrip(draw[j]);
    }
    JoinSplit(items, ',');
    JoinFree(items, ',', ';');
    JoinFree(items, ',', ':');
  }

  /** format_line reads back the draws a rendered line was made from, whatever its title. */
  lemma FormatRender(title: string, draws: seq<seq<seq<string>>>)
    requires Free(title, ':') && Renderable(draws)
    ensures FormatLine(Render(title, draws)) == Ok(draws)
  {
    var texts := seq(|draws|, i requires 0 <= i < |draws| => RenderDraw(draws[i]));
    var body := Join(texts, ';');
    forall i | 0 <= i < |draws|
      ensures var items := Split(texts[i], ',');
        |items| == |draws[i]| && forall j :: 0 <= j < |draws[i]| ==> ItemTokens(items[j]) == draws[i][j]
      ensures Free(texts[i], ';') && Free(texts[i], ':')
    {
      DrawRoundTrip(draws[i]);
    }
    JoinSplit(texts, ';');
    JoinFree(texts, ';', ':');
    SplitAfterFree(title, body, ':');
    FreeSplit(body, ':');
    assert Split(Render(title, draws), ':') == [title, body];
    var r := FormatLine(Render(title, draws)).value;
    assert |r| == |draws|;
    forall i | 0 <= i < |draws|
      ensures r[i] == draws[i]
    {
      assert |r[i]| == |draws[i]|;
      assert forall j :: 0 <= j < |draws[i]| ==> r[i][j] == draws[i][j];
    }
    assert r == draws;
  }

  // ---------------------------------------------------------------------------
  // format_draw
  // ---------------------------------------------------------------------------

  /** The keys of idx_dict, in the order of the row. */
  const Colours: seq<string> := ["blue", "green", "red"]

  function ColourIndex(colour: string): (r: Option<nat>)
    ensures r.Some? <==> colour in Colours
    ensures r.Some? ==> r.value < 3 && Colours[r.value] == colour
  {
    if colour == "blue" then Some(0) else if colour == "green" then Some(1)
    else if colour == "red" then Some(2) else None
  }

  predicate IsDigit(c: char) {
    '0' <= c <= '9'
  }

  function DigitsValue(s: string): nat
    requires forall i :: 0 <= i < |s| ==> IsDigit(s[i])
  {
    if s == [] then 0
    else
      assert IsDigit(s[|s| - 1]);
      10 * DigitsValue(s[..|s| - 1]) + (s[|s| - 1] as int - '0' as int)
  }

  /** int(s) for an optional sign followed by decimal digits. */
  function ParseInt(s: string): (r: Option<int>)
    ensures r.Some? ==> |s| >= 1
  {
    if |s| >= 2 && (s[0] == '-' || s[0] == '+') && forall i :: 1 <= i < |s| ==> IsDigit(s[i]) then
      Some(if s[0] == '-' then 0 - DigitsValue(s[1..]) else DigitsValue(s[1..]))
    else if |s| >= 1 && forall i :: 0 <= i < |s| ==> IsDigit(s[i]) then Some(DigitsValue(s))
    else None
  }

  /** What output_row[idx_dict[item[1]]] += int(item[0]) raises, if anything: the colour is
    * read first (IndexError without it, KeyError for an unknown one), then the count. */
  function ItemError(item: seq<string>): Option<PyError>
  {
    if |item| < 2 then Some(IndexError)
    else if ColourIndex(item[1]).None? then Some(KeyError)
    else if ParseInt(item[0]).None? then Some(ValueError)
    else None
  }

  /** The row index and the count of a well-formed item. */
  function ItemColour(item: seq<string>): nat
    requires ItemError(item).None?
  {
    ColourIndex(item[1]).value
  }

  function ItemCount(item: seq<string>): int
    requires ItemError(item).None?
  {
    ParseInt(item[0]).value
  }

  predicate WellFormed(draw: seq<seq<string>>) {
    forall i :: 0 <= i < |draw| ==> ItemError(draw[i]).None?
  }

  /** The row after the items of draw have been added in order, or the first item's error. */
  function Totals(draw: seq<seq<string>>): (r: Result<seq<int>>)
    ensures r.Ok? ==> |r.value| == 3
  {
    if draw == [] then Ok([0, 0, 0])
    else
      var item := draw[|draw| - 1];
      match Totals(draw[..|draw| - 1])
      case Err(e) => Err(e)
      case Ok(row) =>
        match ItemError(item)
        case Some(e) => Err(e)
        case None => Ok(row[ItemColour(item) := row[ItemColour(item)] + ItemCount(item)])
  }

  /** The cubes of colour c the draw shows, summed over its items. */
  function Tally(draw: seq<seq<string>>, c: nat): int
    requires WellFormed(draw)
  {
    if draw == [] then 0
    else
      var item := draw[|draw| - 1];
      Tally(draw[..|draw| - 1], c) + (if ItemColour(item) == c then ItemCount(item) else 0)
  }

  /** format_draw succeeds exactly on draws whose every item is well formed. */
  lemma {:induction false} TotalsOk(draw: seq<seq<string>>)
    ensures Totals(draw).Ok? <==> WellFormed(draw)
  {
    if draw != [] {
      var front := draw[..|draw| - 1];
      TotalsOk(front);
      assert forall i :: 0 <= i < |front| ==> front[i] == draw[i];
    }
  }

  /** On success the row holds, for blue, green and red, the sum of that colour's counts:
    * absent colours are 0 and repeated colours add up. */
  lemma {:induction false} TotalsTally(draw: seq<seq<string>>)
    requires WellFormed(draw)
    ensures Totals(draw) == Ok([Tally(draw, 0), Tally(draw, 1), Tally(draw, 2)])
  {
    if draw != [] {
      var front := draw[..|draw| - 1];
      assert forall i :: 0 <= i < |front| ==> front[i] == draw[i];
      TotalsTally(front);
      var item := draw[|draw| - 1];
      var c := ItemColour(item);
      assert c < 3;
      var row := [Tally(front, 0), Tally(front, 1), Tally(front, 2)];
      var n := ItemCount(item);
      assert Totals(draw) == Ok(row[c := row[c] + n]);
      assert Tally(draw, 0) == row[0] + (if c == 0 then n else 0);
      assert Tally(draw, 1) == row[1] + (if c == 1 then n else 0);
      assert Tally(draw, 2) == row[2] + (if c == 2 then n else 0);
      if c == 0 {
        assert row[c := row[c] + n] == [row[0] + n, row[1], row[2]];
      } else if c == 1 {
        assert row[c := row[c] + n] == [row[0], row[1] + n, row[2]];
      } else {
        assert row[c := row[c] + n] == [row[0], row[1], row[2] + n];
      }
    }
  }

  /** A colour no item names counts 0. */
  lemma {:induction false} AbsentColour(draw: seq<seq<string>>, c: nat)
    requires WellFormed(draw)
    requires forall i :: 0 <= i < |draw| ==> ItemColour(draw[i]) != c
    ensures Tally(draw, c) == 0
  {
    if draw != [] {
      var front := draw[..|draw| - 1];
      assert forall i :: 0 <= i < |front| ==> front[i] == draw[i];
      AbsentColour(front, c);
    }
  }

  /** On failure the error is that of the first item that is not well formed. */
  lemma {:induction false} TotalsError(draw: seq<seq<string>>)
    requires Totals(draw).Err?
    ensures exists i :: 0 <= i < |draw| && ItemError(draw[i]) == Some(Totals(draw).error) &&
                        (forall j :: 0 <= j < i ==> ItemError(draw[j]).None?)
  {
    var front := draw[..|draw| - 1];
    assert forall i :: 0 <= i < |front| ==> front[i] == draw[i];
    if Totals(front).Err? {
      TotalsError(front);
      var i :| 0 <= i < |front| && ItemError(front[i]) == Some(Totals(front).error) &&
        forall j :: 0 <= j < i ==> ItemError(front[j]).None?;
      assert ItemError(draw[i]) == Some(Totals(draw).error);
    } else {
      TotalsOk(front);
      assert ItemError(draw[|draw| - 1]) == Some(Totals(draw).error);
    }
  }

  /** The error of the first items is the error of the whole draw. */
  lemma {:induction false} TotalsErrorPersists(draw: seq<seq<string>>, k: nat)
    requires k <= |draw| && Totals(draw[..k]).Err?
    ensures Totals(draw) == Totals(draw[..k])
    decreases |draw| - k
  {
    if k < |draw| {
      assert draw[..k + 1][..k] == draw[..k];
      TotalsErrorPersists(draw, k + 1);
    } else {
      assert draw[..k] == draw;
    }
  }

  /** format_draw: output_row starts at [0, 0, 0] and each item adds its count at its
    * colour's index. */
  method FormatDraw(draw: seq<seq<string>>) returns (r: Result<seq<int>>)
    ensures r == Totals(draw)
  {
    var row := [0, 0, 0];
    var i := 0;
    while i < |draw|
      invariant 0 <= i <= |draw|
      invariant Totals(draw[..i]) == Ok(row)
    {
      var item := draw[i];
      assert draw[..i + 1][..i] == draw[..i];
      if |item| < 2 {
        TotalsErrorPersists(draw, i + 1);
        return Err(IndexError);
      }
      var idx := ColourIndex(item[1]);
      if idx.None? {
        TotalsErrorPersists(draw, i + 1);
        return Err(KeyError);
      }
      var count := ParseInt(item[0]);
      if count.None? {
        TotalsErrorPersists(draw, i + 1);
        return Err(ValueError);
      }
      row := row[idx.value := row[idx.value] + count.value];
      i := i + 1;
    }
    assert draw[..i] == draw;
    r := Ok(row);
  }

  // ---------------------------------------------------------------------------
  // gameMatrix_constructor
  // ---------------------------------------------------------------------------

  /** The rows of the draws in order, or the first error. */
  function Rows(draws: seq<seq<seq<string>>>): (r: Result<seq<seq<int>>>)
    ensures r.Ok? <==> forall i :: 0 <= i < |draws| ==> Totals(draws[i]).Ok?
    ensures r.Ok? ==> |r.value| == |draws| && forall i :: 0 <= i < |draws| ==> r.value[i] == Totals(draws[i]).value
  {
    if draws == [] then Ok([])
    else
      var last := draws[|draws| - 1];
      var front := draws[..|draws| - 1];
      assert forall i :: 0 <= i < |front| ==> front[i] == draws[i];
      match Rows(front)
      case Err(e) => Err(e)
      case Ok(rows) =>
        match Totals(last)
        case Err(e) => Err(e)
        case Ok(row) => Ok(rows + [row])
  }

  /** One row [blue, green, red] per draw of the line. */
  function GameMatrix(line: string): (r: Result<seq<seq<int>>>)
    ensures r.Ok? ==> |r.value| >= 1 && forall i :: 0 <= i < |r.value| ==> |r.value[i]| == 3
  {
    match FormatLine(line)
    case Err(e) => Err(e)
    case Ok(draws) => Rows(draws)
  }

  /** The draws of the first game of the puzzle's example. */
  const ExampleDraws: seq<seq<seq<string>>> :=
    [[["3", "blue"], ["4", "red"]], [["1", "red"], ["2", "green"], ["6", "blue"]], [["2", "green"]]]

  /** The line of gameMatrix_constructor's doc string,
    * "Game 1: 3 blue, 4 red; 1 red, 2 green, 6 blue; 2 green", written piecewise. */
  const ExampleLine: string :=
    "Game 1" + ":" + " 3 blue, 4 red" + ";" + " 1 red, 2 green, 6 blue" + ";" + " 2 green"

  lemma JoinTwo(a: string, b: string, sep: char)
    ensures Join([a, b], sep) == a + [sep] + b
  {
    assert [a, b][1..] == [b];
  }

  lemma JoinThree(a: string, b: string, c: string, sep: char)
    ensures Join([a, b, c], sep) == a + [sep] + b + [sep] + c
  {
    assert [a, b, c][1..] == [b, c];
    JoinTwo(b, c, sep);
  }

  /** The rendering of an item "n colour". */
  lemma RenderPair(n: string, colour: string, text: string)
    requires text == " " + n + " " + colour
    ensures RenderItem([n, colour]) == text
  {
    assert [""] + [n, colour] == ["", n, colour];
    JoinThree("", n, colour, ' ');
  }

  lemma RenderOneItem(i0: seq<string>)
    ensures RenderDraw([i0]) == RenderItem(i0)
  {
    var items := seq(1, j requires 0 <= j < 1 => RenderItem([i0][j]));
    assert items == [RenderItem(i0)];
  }

  lemma RenderTwoItems(i0: seq<string>, i1: seq<string>)
    ensures RenderDraw([i0, i1]) == RenderItem(i0) + "," + RenderItem(i1)
  {
    var items := seq(2, j requires 0 <= j < 2 => RenderItem([i0, i1][j]));
    assert items == [RenderItem(i0), RenderItem(i1)];
    JoinTwo(RenderItem(i0), RenderItem(i1), ',');
  }

  lemma RenderThreeItems(i0: seq<string>, i1: seq<string>, i2: seq<string>)
    ensures RenderDraw([i0, i1, i2]) == RenderItem(i0) + "," + RenderItem(i1) + "," + RenderItem(i2)
  {
    var items := seq(3, j requires 0 <= j < 3 => RenderItem([i0, i1, i2][j]));
    assert items == [RenderItem(i0), RenderItem(i1), RenderItem(i2)];
    JoinThree(RenderItem(i0), RenderItem(i1), RenderItem(i2), ',');
  }

  lemma RenderThreeDraws(title: string, d0: seq<seq<string>>, d1: seq<seq<string>>, d2: seq<seq<string>>)
    requires |d0| >= 1 && |d1| >= 1 && |d2| >= 1 && Renderable([d0, d1, d2])
    ensures Render(title, [d0, d1, d2]) == title + ":" + RenderDraw(d0) + ";" + RenderDraw(d1) + ";" + RenderDraw(d2)
  {
    var ds := [d0, d1, d2];
    var texts := seq(3, i requires 0 <= i < 3 => RenderDraw(ds[i]));
    assert texts == [RenderDraw(d0), RenderDraw(d1), RenderDraw(d2)];
    JoinThree(RenderDraw(d0), RenderDraw(d1), RenderDraw(d2), ';');
  }

  lemma ExampleFirstDraw()
    ensures RenderDraw(ExampleDraws[0]) == " 3 blue, 4 red"
  {
    RenderPair("3", "blue", " 3 blue");
    RenderPair("4", "red", " 4 red");
    RenderTwoItems(["3", "blue"], ["4", "red"]);
  }

  lemma ExampleSecondDraw()
    ensures RenderDraw(ExampleDraws[1]) == " 1 red, 2 green, 6 blue"
  {
    RenderPair("1", "red", " 1 red");
    RenderPair("2", "green", " 2 green");
    RenderPair("6", "blue", " 6 blue");
    RenderThreeItems(["1", "red"], ["2", "green"], ["6", "blue"]);
  }

  lemma ExampleThirdDraw()
    ensures RenderDraw(ExampleDraws[2]) == " 2 green"
  {
    RenderPair("2", "green", " 2 green");
    RenderOneItem(["2", "green"]);
  }

  lemma WordTokens()
    ensures Token("red") && Token("blue") && Token("green")
  {
  }

  lemma DigitTokens()
    ensures Token("1") && Token("2") && Token("3") && Token("4") && Token("6")
  {
  }

  lemma ExampleRenderable()
    ensures Renderable(ExampleDraws)
  {
    WordTokens();
    DigitTokens();
  }

  lemma ExampleRendered()
    ensures Renderable(ExampleDraws)
    ensures Render("Game 1", ExampleDraws) == ExampleLine
  {
    ExampleRenderable();
    ExampleFirstDraw();
    ExampleSecondDraw();
    ExampleThirdDraw();
    RenderThreeDraws("Game 1", ExampleDraws[0], ExampleDraws[1], ExampleDraws[2]);
  }

  /** A one-digit count of the colour of row index c. */
  lemma DigitItem(d: char, c: nat, n: int)
    requires IsDigit(d) && c < 3 && n == d as int - '0' as int
    ensures ItemError([[d], Colours[c]]).None?
    ensures ItemCount([[d], Colours[c]]) == n
    ensures ItemColour([[d], Colours[c]]) == c
  {
    assert DigitsValue([d]) == n by {
      assert [d][..0] == [];
    }
  }

  /** Adding one well-formed item to a draw. */
  lemma TotalsSnoc(draw: seq<seq<string>>, item: seq<string>)
    requires Totals(draw).Ok? && ItemError(item).None?
    ensures var row := Totals(draw).value; var c := ItemColour(item);
      Totals(draw + [item]) == Ok(row[c := row[c] + ItemCount(item)])
  {
    assert (draw + [item])[..|draw|] == draw;
  }

  lemma ExampleFirstTotals()
    ensures Totals(ExampleDraws[0]) == Ok([3, 0, 4])
  {
    var i0, i1 := ["3", Colours[0]], ["4", Colours[2]];
    DigitItem('3', 0, 3);
    DigitItem('4', 2, 4);
    TotalsSnoc([], i0);
    assert [] + [i0] == [i0];
    assert [0, 0, 0][0 := 0 + 3] == [3, 0, 0];
    TotalsSnoc([i0], i1);
    assert [3, 0, 0][2 := 0 + 4] == [3, 0, 4];
    assert [i0] + [i1] == ExampleDraws[0];
  }

  lemma ExampleSecondTotals()
    ensures Totals(ExampleDraws[1]) == Ok([6, 2, 1])
  {
    var i0, i1, i2 := ["1", Colours[2]], ["2", Colours[1]], ["6", Colours[0]];
    DigitItem('1', 2, 1);
    DigitItem('2', 1, 2);
    DigitItem('6', 0, 6);
    TotalsSnoc([], i0);
    assert [] + [i0] == [i0];
    assert [0, 0, 0][2 := 0 + 1] == [0, 0, 1];
    TotalsSnoc([i0], i1);
    assert [i0] + [i1] == [i0, i1];
    assert [0, 0, 1][1 := 0 + 2] == [0, 2, 1];
    TotalsSnoc([i0, i1], i2);
    assert [0, 2, 1][0 := 0 + 6] == [6, 2, 1];
    assert [i0, i1] + [i2] == ExampleDraws[1];
  }

  lemma ExampleThirdTotals()
    ensures Totals(ExampleDraws[2]) == Ok([0, 2, 0])
  {
    var i0 := ["2", Colours[1]];
    DigitItem('2', 1, 2);
    TotalsSnoc([], i0);
    assert [0, 0, 0][1 := 0 + 2] == [0, 2, 0];
    assert [] + [i0] == ExampleDraws[2];
  }

  lemma ExampleRows()
    ensures Rows(ExampleDraws) == Ok([[3, 0, 4], [6, 2, 1], [0, 2, 0]])
  {
    ExampleFirstTotals();
    ExampleSecondTotals();
    ExampleThirdTotals();
    var r := Rows(ExampleDraws);
    assert forall i :: 0 <= i < 3 ==> Totals(ExampleDraws[i]).Ok?;
    assert r.Ok? && |r.value| == 3;
    assert r.value[0] == [3, 0, 4] && r.value[1] == [6, 2, 1] && r.value[2] == [0, 2, 0];
    assert r.value == [[3, 0, 4], [6, 2, 1], [0, 2, 0]];
  }

  /** The example of gameMatrix_constructor's doc string: one row per draw, the columns in
    * the order blue, green, red, and 0 for a colour the draw does not show. */
  lemma ExampleMatrix()
    ensures GameMatrix(ExampleLine) == Ok([[3, 0, 4], [6, 2, 1], [0, 2, 0]])
  {
    ExampleRendered();
    FormatRender("Game 1", ExampleDraws);
    ExampleRows();
  }

  // ---------------------------------------------------------------------------
  // constraint_checker
  // ---------------------------------------------------------------------------

  /** The game matrices gameMatrix_constructor builds: at least one row, three columns. */
  predicate IsMatrix(m: seq<seq<int>>) {
    |m| >= 1 && forall r :: 0 <= r < |m| ==> |m[r]| == 3
  }

  /** No entry of column c exceeds limit. */
  predicate ColumnWithin(m: seq<seq<int>>, c: nat, limit: int)
    requires IsMatrix(m) && c < 3
  {
    forall r :: 0 <= r < |m| ==> m[r][c] <= limit
  }

  predicate AllWithin(m: seq<seq<int>>, limits: seq<int>)
    requires IsMatrix(m) && |limits| >= 3
  {
    forall r, c :: 0 <= r < |m| && 0 <= c < 3 ==> m[r][c] <= limits[c]
  }

  const DefaultLimits: seq<int> := [14, 13, 12]

  /** The answer of the column loop from column c on: 0 at the first column with an entry
    * over its limit, 1 after the last, an IndexError where the limits run out. */
  function CheckFrom(m: seq<seq<int>>, limits: seq<int>, c: nat): Result<int>
    requires IsMatrix(m) && c <= 3
    decreases 3 - c
  {
    if c == 3 then Ok(1)
    else if c >= |limits| then Err(IndexError)
    else if !ColumnWithin(m, c, limits[c]) then Ok(0)
    else CheckFrom(m, limits, c + 1)
  }

  /** With three limits the answer is 1 exactly when every entry is within its column's
    * limit, and 0 otherwise. */
  lemma {:induction false} CheckMeaning(m: seq<seq<int>>, limits: seq<int>, c: nat)
    requires IsMatrix(m) && |limits| >= 3 && c <= 3
    requires forall k :: 0 <= k < c ==> ColumnWithin(m, k, limits[k])
    ensures CheckFrom(m, limits, c) == Ok(1) <==> AllWithin(m, limits)
    ensures CheckFrom(m, limits, c) == Ok(0) <==> !AllWithin(m, limits)
    decreases 3 - c
  {
    if c < 3 {
      if ColumnWithin(m, c, limits[c]) {
        CheckMeaning(m, limits, c + 1);
      } else {
        var r :| 0 <= r < |m| && m[r][c] > limits[c];
        assert !AllWithin(m, limits);
      }
    }
  }

  /** With too few limits the loop fails once it reaches a column without one, unless an
    * earlier column already answered 0. */
  lemma {:induction false} CheckShortLimits(m: seq<seq<int>>, limits: seq<int>, c: nat)
    requires IsMatrix(m) && |limits| < 3 && c <= |limits|
    ensures CheckFrom(m, limits, c) == Err(IndexError) <==>
      forall k :: c <= k < |limits| ==> ColumnWithin(m, k, limits[k])
    ensures CheckFrom(m, limits, c) != Err(IndexError) ==> CheckFrom(m, limits, c) == Ok(0)
    decreases |limits| - c
  {
    if c < |limits| {
      CheckShortLimits(m, limits, c + 1);
    }
  }

  /** constraint_checker: the columns are visited in order and the first one holding an
    * entry above its limit answers 0. */
  method ConstraintChecker(m: seq<seq<int>>, limits: seq<int>) returns (r: Result<int>)
    requires IsMatrix(m)
    ensures r == CheckFrom(m, limits, 0)
  {
    var c := 0;
    while c < 3
      invariant 0 <= c <= 3
      invariant CheckFrom(m, limits, 0) == CheckFrom(m, limits, c)
    {
      if c >= |limits| {
        return Err(IndexError);
      }
      var within := true;
      var row := 0;
      while row < |m|
        invariant 0 <= row <= |m|
        invariant within <==> forall k :: 0 <= k < row ==> m[k][c] <= limits[c]
      {
        if m[row][c] > limits[c] {
          within := false;
        }
        row := row + 1;
      }
      if !within {
        return Ok(0);
      }
      c := c + 1;
    }
    return Ok(1);
  }

  /** The two matrices of the doc string: the first is possible, the second is not (its last
    * row has 15 blue and 14 red). */
  method CheckerExamples() returns (first: Result<int>, second: Result<int>)
    ensures first == Ok(1) && second == Ok(0)
  {
    var m1 := [[3, 0, 4], [6, 2, 1], [0, 2, 0]];
    var m2 := [[6, 1, 3], [0, 3, 6], [15, 0, 14]];
    first := ConstraintChecker(m1, DefaultLimits);
    CheckMeaning(m1, DefaultLimits, 0);
    second := ConstraintChecker(m2, DefaultLimits);
    CheckMeaning(m2, DefaultLimits, 0);
    assert m2[2][0] > DefaultLimits[0];
  }

  // ---------------------------------------------------------------------------
  // id_sum and power_sum
  // ---------------------------------------------------------------------------

  /** constraint_checker's answer for each line in order, or the first error. */
  function Verdicts(lines: seq<string>, limits: seq<int>): (r: Result<seq<int>>)
    ensures r.Ok? ==> |r.value| == |lines|
    ensures r.Ok? ==> forall i :: 0 <= i < |lines| ==> r.value[i] == 0 || r.value[i] == 1
  {
    if lines == [] then Ok([])
    else
      match Verdicts(lines[..|lines| - 1], limits)
      case Err(e) => Err(e)
      case Ok(vs) =>
        match GameMatrix(lines[|lines| - 1])
        case Err(e) => Err(e)
        case Ok(m) =>
          match CheckFrom(m, limits, 0)
          case Err(e) => Err(e)
          case Ok(v) =>
            CheckVerdict(m, limits, 0);
            Ok(vs + [v])
  }

  lemma {:induction false} CheckVerdict(m: seq<seq<int>>, limits: seq<int>, c: nat)
    requires IsMatrix(m) && c <= 3
    ensures CheckFrom(m, limits, c).Ok? ==> CheckFrom(m, limits, c).value in {0, 1}
    decreases 3 - c
  {
    if c < 3 {
      CheckVerdict(m, limits, c + 1);
    }
  }

  /** The dot product of the verdicts with the positions 1, 2, ... */
  function PositionSum(vs: seq<int>): int
  {
    if vs == [] then 0 else PositionSum(vs[..|vs| - 1]) + vs[|vs| - 1] * |vs|
  }

  /** id_sum: np.dot of the verdicts with [[1], [2], ...], whose [0] fails on the scalar an
    * empty input gives. */
  function IdSum(lines: seq<string>, limits: seq<int>): Result<int>
  {
    match Verdicts(lines, limits)
    case Err(e) => Err(e)
    case Ok(vs) => if vs == [] then Err(IndexError) else Ok(PositionSum(vs))
  }

  /** id_sum fails on an empty list of games; otherwise its answer is the sum of the positions
    * of the possible games, at most n(n+1)/2. */
  lemma IdSumMeaning(lines: seq<string>, limits: seq<int>)
    ensures |lines| == 0 ==> IdSum(lines, limits) == Err(IndexError)
    ensures IdSum(lines, limits).Ok? ==>
      Verdicts(lines, limits).Ok? && |lines| > 0 &&
      IdSum(lines, limits).value == PossiblePositions(Verdicts(lines, limits).value) &&
      0 <= IdSum(lines, limits).value <= |lines| * (|lines| + 1) / 2
  {
    if Verdicts(lines, limits).Ok? {
      PositionSumMeaning(Verdicts(lines, limits).value);
    }
  }

  /** The positions i + 1 of the possible games, added up. */
  function PossiblePositions(vs: seq<int>): int
  {
    if vs == [] then 0 else PossiblePositions(vs[..|vs| - 1]) + (if vs[|vs| - 1] == 1 then |vs| else 0)
  }

  /** With 0/1 verdicts the dot product is the sum of the positions of the possible games;
    * it lies between 0 and n(n+1)/2 and reaches the top only when every game is possible. */
  lemma {:induction false} PositionSumMeaning(vs: seq<int>)
    requires forall i :: 0 <= i < |vs| ==> vs[i] == 0 || vs[i] == 1
    ensures PositionSum(vs) == PossiblePositions(vs)
    ensures 0 <= PositionSum(vs) <= |vs| * (|vs| + 1) / 2
    ensures PositionSum(vs) == |vs| * (|vs| + 1) / 2 <==> forall i :: 0 <= i < |vs| ==> vs[i] == 1
  {
    if vs != [] {
      var front := vs[..|vs| - 1];
      assert forall i :: 0 <= i < |front| ==> front[i] == vs[i];
      PositionSumMeaning(front);
      var n := |vs|;
      assert n * (n + 1) / 2 == (n - 1) * n / 2 + n;
      if PositionSum(vs) == n * (n + 1) / 2 {
        assert vs[n - 1] == 1;
        assert forall i :: 0 <= i < n - 1 ==> vs[i] == front[i];
      }
    }
  }

  /** The largest entry of column c. */
  function ColumnMax(m: seq<seq<int>>, c: nat): (x: int)
    requires IsMatrix(m) && c < 3
    ensures forall r :: 0 <= r < |m| ==> m[r][c] <= x
    ensures exists r :: 0 <= r < |m| && m[r][c] == x
  {
    if |m| == 1 then m[0][c]
    else
      var front := m[..|m| - 1];
      var x := ColumnMax(front, c);
      assert forall r :: 0 <= r < |front| ==> front[r] == m[r];
      if m[|m| - 1][c] > x then m[|m| - 1][c] else x
  }

  /** np.amax(m, axis=0): the fewest cubes of each colour that make the game possible. */
  function Fewest(m: seq<seq<int>>): (f: seq<int>)
    requires IsMatrix(m)
    ensures |f| == 3
  {
    [ColumnMax(m, 0), ColumnMax(m, 1), ColumnMax(m, 2)]
  }

  /** The column maxima make the game possible, and no smaller limit in any column does. */
  lemma FewestIsLeast(m: seq<seq<int>>, limits: seq<int>)
    requires IsMatrix(m)
    ensures AllWithin(m, Fewest(m))
    ensures |limits| >= 3 && AllWithin(m, limits) ==> forall c :: 0 <= c < 3 ==> Fewest(m)[c] <= limits[c]
  {
    if |limits| >= 3 && AllWithin(m, limits) {
      forall c | 0 <= c < 3
        ensures Fewest(m)[c] <= limits[c]
      {
        var r :| 0 <= r < |m| && m[r][c] == ColumnMax(m, c);
      }
    }
  }

  function Power(m: seq<seq<int>>): int
    requires IsMatrix(m)
  {
    Fewest(m)[0] * Fewest(m)[1] * Fewest(m)[2]
  }

  /** power_sum: the powers of the games added up, or the first error; np.sum of no powers
    * is 0. */
  function PowerSum(lines: seq<string>): Result<int>
  {
    if lines == [] then Ok(0)
    else
      match PowerSum(lines[..|lines| - 1])
      case Err(e) => Err(e)
      case Ok(s) =>
        match GameMatrix(lines[|lines| - 1])
        case Err(e) => Err(e)
        case Ok(m) => Ok(s + Power(m))
  }

  /** A line that parses to a game whose cube counts are all at least 0. */
  predicate CountedGame(line: string) {
    GameMatrix(line).Ok? &&
    forall r, c :: 0 <= r < |GameMatrix(line).value| && 0 <= c < 3 ==> GameMatrix(line).value[r][c] >= 0
  }

  /** When every line is a game with counts of at least 0, power_sum succeeds with a total of
    * at least 0. */
  lemma {:induction false} PowerSumNonNegative(lines: seq<string>)
    requires forall i :: 0 <= i < |lines| ==> CountedGame(lines[i])
    ensures PowerSum(lines).Ok? && PowerSum(lines).value >= 0
  {
    if lines != [] {
      var front, last := lines[..|lines| - 1], lines[|lines| - 1];
      assert forall i :: 0 <= i < |front| ==> front[i] == lines[i];
      PowerSumNonNegative(front);
      assert CountedGame(last);
      PowerNonNegative(GameMatrix(last).value);
    }
  }

  lemma ProductNonNegative(a: int, b: int, c: int)
    requires a >= 0 && b >= 0 && c >= 0
    ensures a * b * c >= 0
  {
  }

  /** A game whose counts are all at least 0 has a power of at least 0. */
  lemma PowerNonNegative(m: seq<seq<int>>)
    requires IsMatrix(m)
    requires forall r, c :: 0 <= r < |m| && 0 <= c < 3 ==> m[r][c] >= 0
    ensures Power(m) >= 0
  {
    assert m[0][0] >= 0 && m[0][1] >= 0 && m[0][2] >= 0;
    ProductNonNegative(Fewest(m)[0], Fewest(m)[1], Fewest(m)[2]);
  }
}
