/**
 * Advent of Code 2023, day 1 (calibration values). Number words are rewritten twice by
 * a leftmost, non-overlapping substitution that keeps the word's outer letters, every
 * character that is not 0-9 is dropped, and each line is worth ten times its first
 * digit plus its last digit. The lines are given as a list; reading the file is not
 * part of the model.
 */
module Calibration {
  import opened Wrappers

  const Keys: seq<string> := ["one", "two", "three", "four", "five", "six", "seven", "eight", "nine"]
  const Values: seq<string> := ["1ne", "2wo", "3hree", "4our", "5ive", "6ix", "7even", "e8ght", "n9ne"]

  predicate IsDigit(c: char) {
    '0' <= c <= '9'
  }

  function DigitValue(c: char): nat
    requires IsDigit(c)
  {
    c as int - '0' as int
  }

  /** s begins with key, compared character by character. */
  predicate StartsWith(s: string, key: string)
    decreases key
    ensures StartsWith(s, key) ==> |key| <= |s| && forall i :: 0 <= i < |key| ==> s[i] == key[i]
  {
    key == [] || (s != [] && s[0] == key[0] && StartsWith(s[1..], key[1..]))
  }

  lemma {:induction false} StartsWithIsPrefix(s: string, key: string)
    ensures StartsWith(s, key) <==> key <= s
    decreases key
  {
    if key != [] && s != [] {
      StartsWithIsPrefix(s[1..], key[1..]);
      if key <= s {
        assert key[1..] <= s[1..];
      }
      if StartsWith(s, key) {
        assert key == [key[0]] + key[1..];
        assert s == [s[0]] + s[1..];
      }
    }
  }

  /** The first key, in the order of the alternation, that starts s, searching from key k. */
  function KeyFrom(s: string, k: nat): (r: Option<nat>)
    requires k <= 9
    decreases 9 - k
    ensures r.Some? ==> k <= r.value < 9 && StartsWith(s, Keys[r.value])
    ensures r.Some? ==> forall j :: k <= j < r.value ==> !StartsWith(s, Keys[j])
    ensures r.None? ==> forall j :: k <= j < 9 ==> !StartsWith(s, Keys[j])
  {
    if k == 9 then None else if StartsWith(s, Keys[k]) then Some(k) else KeyFrom(s, k + 1)
  }

  /** re.sub over the alternation of the keys: scanning from the left, a key that starts
    * here is replaced by its value and the scan resumes after it; otherwise one character
    * is kept. */
  function SubstPass(s: string): string
    decreases |s|
  {
    if s == [] then ""
    else match KeyFrom(s, 0)
      case Some(k) => Values[k] + SubstPass(s[|Keys[k]|..])
      case None => [s[0]] + SubstPass(s[1..])
  }

  /** re.sub("[^0-9]", "", s). */
  function Digits(s: string): string
  {
    if s == [] then "" else (if IsDigit(s[0]) then [s[0]] else "") + Digits(s[1..])
  }

  /** The filter keeps only digits and never lengthens the line. */
  lemma {:induction false} DigitsOnly(s: string)
    ensures forall i :: 0 <= i < |Digits(s)| ==> IsDigit(Digits(s)[i])
    ensures |Digits(s)| <= |s|
  {
    if s != [] {
      DigitsOnly(s[1..]);
    }
  }

  /** Both substitution passes, then the digit filter. */
  function CalibrationDigits(line: string): (d: string)
    ensures forall i :: 0 <= i < |d| ==> IsDigit(d[i])
  {
    var text := SubstPass(SubstPass(line));
    DigitsOnly(text);
    Digits(text)
  }

  /** int(d[0] + d[-1]); an empty digit string fails at d[0] with an IndexError. */
  function LineValue(line: string): Result<nat>
  {
    var d := CalibrationDigits(line);
    if d == [] then Err(IndexError) else Ok(10 * DigitValue(d[0]) + DigitValue(d[|d| - 1]))
  }

  /** sum of the line values; the first line without a digit raises IndexError. */
  function CalibrationSum(lines: seq<string>): (r: Result<nat>)
    ensures r.Err? <==> exists i :: 0 <= i < |lines| && CalibrationDigits(lines[i]) == []
    ensures r.Err? ==> r.error == IndexError
  {
    if lines == [] then Ok(0)
    else match LineValue(lines[0])
      case Err(e) => Err(e)
      case Ok(v) =>
        match CalibrationSum(lines[1..])
          case Err(e) => (assert lines[1..][0] == lines[1]; Err(e))
          case Ok(rest) =>
            assert forall i :: 1 <= i < |lines| ==> lines[i] == lines[1..][i - 1];
            Ok(v + rest)
  }

  // ---------------------------------------------------------------------------
  // Properties
  // ---------------------------------------------------------------------------

  /** Each replacement has its word's length and exactly one digit, the word's value. */
  lemma ReplacementDigit(k: nat)
    requires k < 9
    ensures |Values[k]| == |Keys[k]|
    ensures Digits(Values[k]) == ["123456789"[k]]
  {
    if k == 0 { assert Values[k] == "1ne"; assert Digits("1ne") == "1"; }
    else if k == 1 { assert Values[k] == "2wo"; assert Digits("2wo") == "2"; }
    else if k == 2 { assert Values[k] == "3hree"; assert Digits("3hree") == "3"; }
    else if k == 3 { assert Values[k] == "4our"; assert Digits("4our") == "4"; }
    else if k == 4 { assert Values[k] == "5ive"; assert Digits("5ive") == "5"; }
    else if k == 5 { assert Values[k] == "6ix"; assert Digits("6ix") == "6"; }
    else if k == 6 { assert Values[k] == "7even"; assert Digits("7even") == "7"; }
    else if k == 7 { assert Values[k] == "e8ght"; assert Digits("e8ght") == "8"; }
    else { assert Values[k] == "n9ne"; assert Digits("n9ne") == "9"; }
  }

  /** A substitution pass keeps the line's length. */
  lemma {:induction false} SubstPassLength(s: string)
    ensures |SubstPass(s)| == |s|
    decreases |s|
  {
    if s != [] {
      match KeyFrom(s, 0)
      case Some(k) =>
        ReplacementDigit(k);
        SubstPassLength(s[|Keys[k]|..]);
      case None =>
        SubstPassLength(s[1..]);
    }
  }

  /** The digit filter distributes over concatenation. */
  lemma {:induction false} DigitsAppend(a: string, b: string)
    ensures Digits(a + b) == Digits(a) + Digits(b)
    decreases |a|
  {
    if a == [] {
      assert a + b == b;
    } else {
      DigitsAppend(a[1..], b);
      assert (a + b)[0] == a[0] && (a + b)[1..] == a[1..] + b;
      var head := if IsDigit(a[0]) then [a[0]] else "";
      calc {
        Digits(a + b);
        head + Digits(a[1..] + b);
        head + (Digits(a[1..]) + Digits(b));
        (head + Digits(a[1..])) + Digits(b);
      }
    }
  }

  // ---------------------------------------------------------------------------
  // Stepping a substitution pass over known text
  // ---------------------------------------------------------------------------

  /** c followed by c1 are the first two letters of some number word; no two words share them. */
  predicate KeyHead(c0: char, c1: char) {
    (c0 == 'o' && c1 == 'n') || (c0 == 't' && (c1 == 'w' || c1 == 'h')) ||
    (c0 == 'f' && (c1 == 'o' || c1 == 'i')) || (c0 == 's' && (c1 == 'i' || c1 == 'e')) ||
    (c0 == 'e' && c1 == 'i') || (c0 == 'n' && c1 == 'i')
  }

  /** The word whose first two letters are c0 c1. */
  function HeadKey(c0: char, c1: char): (k: nat)
    requires KeyHead(c0, c1)
    ensures k < 9
  {
    if c0 == 'o' then 0 else if c0 == 't' then (if c1 == 'w' then 1 else 2)
    else if c0 == 'f' then (if c1 == 'o' then 3 else 4)
    else if c0 == 's' then (if c1 == 'i' then 5 else 6)
    else if c0 == 'e' then 7 else 8
  }

  lemma KeyHeads(j: nat)
    requires j < 9
    ensures |Keys[j]| >= 3 && KeyHead(Keys[j][0], Keys[j][1]) && HeadKey(Keys[j][0], Keys[j][1]) == j
  {
    if j == 0 { assert Keys[j] == "one"; }
    else if j == 1 { assert Keys[j] == "two"; }
    else if j == 2 { assert Keys[j] == "three"; }
    else if j == 3 { assert Keys[j] == "four"; }
    else if j == 4 { assert Keys[j] == "five"; }
    else if j == 5 { assert Keys[j] == "six"; }
    else if j == 6 { assert Keys[j] == "seven"; }
    else if j == 7 { assert Keys[j] == "eight"; }
    else { assert Keys[j] == "nine"; }
  }

  /** c, followed by rest, starts a number word's first two letters. */
  predicate HeadAt(c: char, rest: string) {
    rest != [] && KeyHead(c, rest[0])
  }

  /** No number word starts at any character of a, when a is followed by next. */
  predicate Quiet(a: string, next: string)
    decreases |a|
  {
    a == [] || (!HeadAt(a[0], if |a| > 1 then a[1..] else next) && Quiet(a[1..], next))
  }

  /** No word matches where the first two letters are not those of a word. */
  lemma NoKey(s: string)
    requires s != [] && !HeadAt(s[0], s[1..])
    ensures KeyFrom(s, 0).None?
  {
    forall j | 0 <= j < 9
      ensures !StartsWith(s, Keys[j])
    {
      KeyHeads(j);
      if |s| >= 2 {
        assert s[1..][0] == s[1];
      }
    }
  }

  /** A word whose head is there is the one the alternation picks. */
  lemma {:induction false} KeyFromFirst(s: string, j: nat, k: nat)
    requires j <= k < 9 && StartsWith(s, Keys[k])
    requires forall i :: j <= i < k ==> !StartsWith(s, Keys[i])
    ensures KeyFrom(s, j) == Some(k)
    decreases k - j
  {
    if j < k {
      KeyFromFirst(s, j + 1, k);
    }
  }

  /** A character that starts no word is copied and the scan moves on by one. */
  lemma KeepChar(c: char, s: string)
    requires !HeadAt(c, s)
    ensures SubstPass([c] + s) == [c] + SubstPass(s)
  {
    assert ([c] + s)[1..] == s;
    NoKey([c] + s);
  }

  /** A whole word is replaced by its value and the scan resumes after it. */
  lemma WordStep(k: nat, s: string)
    requires k < 9
    ensures SubstPass(Keys[k] + s) == Values[k] + SubstPass(s)
  {
    var t := Keys[k] + s;
    KeyHeads(k);
    StartsWithIsPrefix(t, Keys[k]);
    forall i | 0 <= i < k
      ensures !StartsWith(t, Keys[i])
    {
      KeyHeads(i);
    }
    KeyFromFirst(t, 0, k);
    assert t[|Keys[k]|..] == s;
  }

  lemma Assoc(x: string, y: string, z: string)
    ensures x + (y + z) == x + y + z
  {
  }

  /** Text in which no word starts passes through unchanged. */
  lemma {:induction false} QuietStep(a: string, b: string)
    requires Quiet(a, b)
    ensures SubstPass(a + b) == a + SubstPass(b)
    decreases |a|
  {
    if a == [] {
      assert a + b == b;
    } else {
      assert a + b == [a[0]] + (a[1..] + b);
      if |a| > 1 {
        assert (a[1..] + b)[0] == a[1];
      } else {
        assert a[1..] + b == b;
      }
      KeepChar(a[0], a[1..] + b);
      QuietStep(a[1..], b);
      assert [a[0]] + a[1..] == a;
      Assoc([a[0]], a[1..], SubstPass(b));
    }
  }

  /** Without number words the substitution changes nothing. */
  lemma SubstPassQuiet(s: string)
    requires Quiet(s, "")
    ensures SubstPass(s) == s
  {
    assert s + "" == s;
    QuietStep(s, "");
  }

  /** A line with a single digit d (after substitution) is worth 11 * d, e.g. treb7uchet. */
  lemma SingleDigit(line: string)
    requires |CalibrationDigits(line)| == 1
    ensures LineValue(line) == Ok(11 * DigitValue(CalibrationDigits(line)[0]))
  {
  }

  /** Four pieces in which no word starts pass both substitutions unchanged, so only the
    * digit filter acts on them. */
  lemma QuietPieces(p0: string, p1: string, p2: string, p3: string)
    requires Quiet(p0, p1 + (p2 + (p3 + ""))) && Quiet(p1, p2 + (p3 + "")) && Quiet(p2, p3 + "") && Quiet(p3, "")
    ensures CalibrationDigits(p0 + (p1 + (p2 + (p3 + "")))) == Digits(p0) + (Digits(p1) + (Digits(p2) + Digits(p3)))
  {
    var s := p0 + (p1 + (p2 + (p3 + "")));
    QuietStep(p3, "");
    QuietStep(p2, p3 + "");
    QuietStep(p1, p2 + (p3 + ""));
    QuietStep(p0, p1 + (p2 + (p3 + "")));
    assert SubstPass(s) == s;
    assert p3 + "" == p3;
    DigitsAppend(p2, p3);
    DigitsAppend(p1, p2 + p3);
    DigitsAppend(p0, p1 + (p2 + p3));
  }

  /** The worked examples of the puzzle text, part 1 and part 2. */
  const Part1Example: seq<string> := ["1abc2", "pqr3stu8vwx", "a1b2c3d4e5f", "treb7uchet"]
  const Part2Example: seq<string> :=
    ["two1nine", "eightwothree", "abcone2threexyz", "xtwone3four", "4nineeightseven2", "zoneight234", "7pqrstsixteen"]

  // Each worked example is cut into short pieces: plain text of at most three characters
  // and whole number words. <Line>Text states how the line is spelled by its pieces and that
  // no word starts inside a plain piece; <Line>TextMore does the same for the text the first
  // pass leaves; <Line>Digits gives the digits of the final pieces. <Line> then steps both
  // passes piece by piece and states the line's value.

  lemma OneAbcTwoText()
    ensures "1abc2" == "1ab" + ("c2" + "")
    ensures Quiet("1ab", "c2" + "")
    ensures Quiet("c2", "")
  {
  }

  lemma OneAbcTwoDigits()
    ensures Digits("1ab") + (Digits("c2") + "") == "12"
  {
  }

  lemma OneAbcTwo()
    ensures LineValue("1abc2") == Ok(12)
  {
    OneAbcTwoText();
    OneAbcTwoDigits();
    QuietStep("1ab", "c2" + "");
    QuietStep("c2", "");
    DigitsAppend("1ab", "c2" + "");
    DigitsAppend("c2", "");
  }

  lemma PqrThreeStuEightText()
    ensures "pqr3stu8vwx" == "pqr" + ("3st" + ("u8v" + ("wx" + "")))
    ensures Quiet("pqr", "3st" + ("u8v" + ("wx" + "")))
    ensures Quiet("3st", "u8v" + ("wx" + ""))
    ensures Quiet("u8v", "wx" + "")
    ensures Quiet("wx", "")
  {
  }

  lemma PqrThreeStuEightDigits()
    ensures Digits("pqr") == ""
    ensures Digits("3st") == "3"
    ensures Digits("u8v") == "8"
    ensures Digits("wx") == ""
  {
  }

  lemma PqrThreeStuEight()
    ensures LineValue("pqr3stu8vwx") == Ok(38)
  {
    PqrThreeStuEightText();
    PqrThreeStuEightDigits();
    QuietPieces("pqr", "3st", "u8v", "wx");
  }

  lemma AOneBTwoText()
    ensures "a1b2c3d4e5f" == "a1b" + ("2c3" + ("d4e" + ("5f" + "")))
    ensures Quiet("a1b", "2c3" + ("d4e" + ("5f" + "")))
    ensures Quiet("2c3", "d4e" + ("5f" + ""))
    ensures Quiet("d4e", "5f" + "")
    ensures Quiet("5f", "")
  {
  }

  lemma AOneBTwoDigits()
    ensures Digits("a1b") == "1"
    ensures Digits("2c3") == "23"
    ensures Digits("d4e") == "4"
    ensures Digits("5f") == "5"
  {
  }

  lemma AOneBTwo()
    ensures LineValue("a1b2c3d4e5f") == Ok(15)
  {
    AOneBTwoText();
    AOneBTwoDigits();
    QuietPieces("a1b", "2c3", "d4e", "5f");
  }

  lemma TrebSevenText()
    ensures "treb7uchet" == "tre" + ("b7u" + ("che" + ("t" + "")))
    ensures Quiet("tre", "b7u" + ("che" + ("t" + "")))
    ensures Quiet("b7u", "che" + ("t" + ""))
    ensures Quiet("che", "t" + "")
    ensures Quiet("t", "")
  {
  }

  lemma TrebSevenDigits()
    ensures Digits("tre") == ""
    ensures Digits("b7u") == "7"
    ensures Digits("che") == ""
    ensures Digits("t") == ""
  {
  }

  lemma TrebSeven()
    ensures LineValue("treb7uchet") == Ok(77)
  {
    TrebSevenText();
    TrebSevenDigits();
    QuietPieces("tre", "b7u", "che", "t");
  }

  lemma TwoOneNineText()
    ensures "two1nine" == Keys[1] + ("1" + (Keys[8] + ""))
    ensures Quiet("1", Keys[8] + "")
  {
  }

  lemma TwoOneNineTextMore()
    ensures Quiet(Values[1], "1" + (Values[8] + ""))
    ensures Quiet("1", Values[8] + "")
    ensures Quiet(Values[8], "")
  {
  }

  lemma TwoOneNineDigits()
    ensures Digits(Values[1]) + (Digits("1") + (Digits(Values[8]) + "")) == "219"
  {
    ReplacementDigit(1);
    ReplacementDigit(8);
  }

  lemma TwoOneNine()
    ensures LineValue("two1nine") == Ok(29)
  {
    TwoOneNineText();
    TwoOneNineTextMore();
    TwoOneNineDigits();
    WordStep(1, "1" + (Keys[8] + ""));
    QuietStep("1", Keys[8] + "");
    WordStep(8, "");
    QuietStep(Values[1], "1" + (Values[8] + ""));
    QuietStep("1", Values[8] + "");
    QuietStep(Values[8], "");
    DigitsAppend(Values[1], "1" + (Values[8] + ""));
    DigitsAppend("1", Values[8] + "");
    DigitsAppend(Values[8], "");
  }

  lemma EightTwoThreeText()
    ensures "eightwothree" == Keys[7] + ("wo" + (Keys[2] + ""))
    ensures Quiet("wo", Keys[2] + "")
  {
  }

  lemma EightTwoThreeTextMore()
    ensures Values[7] + ("wo" + (Values[2] + "")) == "e8g" + ("h" + (Keys[1] + ("3hr" + ("ee" + ""))))
    ensures Quiet("e8g", "h" + (Keys[1] + ("3hr" + ("ee" + ""))))
    ensures Quiet("h", Keys[1] + ("3hr" + ("ee" + "")))
    ensures Quiet("3hr", "ee" + "")
    ensures Quiet("ee", "")
  {
  }

  lemma EightTwoThreeDigits()
    ensures Digits("e8g") + (Digits("h") + (Digits(Values[1]) + (Digits("3hr") + (Digits("ee") + "")))) == "823"
  {
    ReplacementDigit(1);
  }

  /** The overlapping words of "eightwothree": the first pass writes "e8ghtwo3hree", the
    * second finds the "two" that shares its "t" with "eight", so the line is worth 83. */
  lemma EightTwoThree()
    ensures LineValue("eightwothree") == Ok(83)
  {
    EightTwoThreeText();
    EightTwoThreeTextMore();
    EightTwoThreeDigits();
    WordStep(7, "wo" + (Keys[2] + ""));
    QuietStep("wo", Keys[2] + "");
    WordStep(2, "");
    QuietStep("e8g", "h" + (Keys[1] + ("3hr" + ("ee" + ""))));
    QuietStep("h", Keys[1] + ("3hr" + ("ee" + "")));
    WordStep(1, "3hr" + ("ee" + ""));
    QuietStep("3hr", "ee" + "");
    QuietStep("ee", "");
    DigitsAppend("e8g", "h" + (Values[1] + ("3hr" + ("ee" + ""))));
    DigitsAppend("h", Values[1] + ("3hr" + ("ee" + "")));
    DigitsAppend(Values[1], "3hr" + ("ee" + ""));
    DigitsAppend("3hr", "ee" + "");
    DigitsAppend("ee", "");
  }

  lemma AbcOneTwoThreeText()
    ensures "abcone2threexyz" == "abc" + (Keys[0] + ("2" + (Keys[2] + ("xyz" + ""))))
    ensures Quiet("abc", Keys[0] + ("2" + (Keys[2] + ("xyz" + ""))))
    ensures Quiet("2", Keys[2] + ("xyz" + ""))
    ensures Quiet("xyz", "")
  {
  }

  lemma AbcOneTwoThreeTextMore()
    ensures Quiet("abc", Values[0] + ("2" + (Values[2] + ("xyz" + ""))))
    ensures Quiet(Values[0], "2" + (Values[2] + ("xyz" + "")))
    ensures Quiet("2", Values[2] + ("xyz" + ""))
    ensures Quiet(Values[2], "xyz" + "")
  {
  }

  lemma AbcOneTwoThreeDigits()
    ensures Digits("abc") + (Digits(Values[0]) + (Digits("2") + (Digits(Values[2]) + (Digits("xyz") + "")))) == "123"
  {
    ReplacementDigit(0);
    ReplacementDigit(2);
  }

  lemma AbcOneTwoThree()
    ensures LineValue("abcone2threexyz") == Ok(13)
  {
    AbcOneTwoThreeText();
    AbcOneTwoThreeTextMore();
    AbcOneTwoThreeDigits();
    QuietStep("abc", Keys[0] + ("2" + (Keys[2] + ("xyz" + ""))));
    WordStep(0, "2" + (Keys[2] + ("xyz" + "")));
    QuietStep("2", Keys[2] + ("xyz" + ""));
    WordStep(2, "xyz" + "");
    QuietStep("xyz", "");
    QuietStep("abc", Values[0] + ("2" + (Values[2] + ("xyz" + ""))));
    QuietStep(Values[0], "2" + (Values[2] + ("xyz" + "")));
    QuietStep("2", Values[2] + ("xyz" + ""));
    QuietStep(Values[2], "xyz" + "");
    DigitsAppend("abc", Values[0] + ("2" + (Values[2] + ("xyz" + ""))));
    DigitsAppend(Values[0], "2" + (Values[2] + ("xyz" + "")));
    DigitsAppend("2", Values[2] + ("xyz" + ""));
    DigitsAppend(Values[2], "xyz" + "");
    DigitsAppend("xyz", "");
  }

  lemma XTwoOneThreeFourText()
    ensures "xtwone3four" == "x" + (Keys[1] + ("ne3" + (Keys[3] + "")))
    ensures Quiet("x", Keys[1] + ("ne3" + (Keys[3] + "")))
    ensures Quiet("ne3", Keys[3] + "")
  {
  }

  lemma XTwoOneThreeFourTextMore()
    ensures "x" + (Values[1] + ("ne3" + (Values[3] + ""))) == "x2w" + (Keys[0] + ("34o" + ("ur" + "")))
    ensures Quiet("x2w", Keys[0] + ("34o" + ("ur" + "")))
    ensures Quiet("34o", "ur" + "")
    ensures Quiet("ur", "")
  {
  }

  lemma XTwoOneThreeFourDigits()
    ensures Digits("x2w") + (Digits(Values[0]) + (Digits("34o") + (Digits("ur") + ""))) == "2134"
  {
    ReplacementDigit(0);
  }

  lemma XTwoOneThreeFour()
    ensures LineValue("xtwone3four") == Ok(24)
  {
    XTwoOneThreeFourText();
    XTwoOneThreeFourTextMore();
    XTwoOneThreeFourDigits();
    QuietStep("x", Keys[1] + ("ne3" + (Keys[3] + "")));
    WordStep(1, "ne3" + (Keys[3] + ""));
    QuietStep("ne3", Keys[3] + "");
    WordStep(3, "");
    QuietStep("x2w", Keys[0] + ("34o" + ("ur" + "")));
    WordStep(0, "34o" + ("ur" + ""));
    QuietStep("34o", "ur" + "");
    QuietStep("ur", "");
    DigitsAppend("x2w", Values[0] + ("34o" + ("ur" + "")));
    DigitsAppend(Values[0], "34o" + ("ur" + ""));
    DigitsAppend("34o", "ur" + "");
    DigitsAppend("ur", "");
  }

  lemma FourNineEightSevenText()
    ensures "4nineeightseven2" == "4" + (Keys[8] + (Keys[7] + (Keys[6] + ("2" + ""))))
    ensures Quiet("4", Keys[8] + (Keys[7] + (Keys[6] + ("2" + ""))))
    ensures Quiet("2", "")
  {
  }

  lemma FourNineEightSevenTextMore()
    ensures Quiet("4", Values[8] + (Values[7] + (Values[6] + ("2" + ""))))
    ensures Quiet(Values[8], Values[7] + (Values[6] + ("2" + "")))
    ensures Quiet(Values[7], Values[6] + ("2" + ""))
    ensures Quiet(Values[6], "2" + "")
  {
  }

  lemma FourNineEightSevenDigits()
    ensures Digits("4") + (Digits(Values[8]) + (Digits(Values[7]) + (Digits(Values[6]) + (Digits("2") + "")))) == "49872"
  {
    ReplacementDigit(6);
    ReplacementDigit(7);
    ReplacementDigit(8);
  }

  lemma FourNineEightSeven()
    ensures LineValue("4nineeightseven2") == Ok(42)
  {
    FourNineEightSevenText();
    FourNineEightSevenTextMore();
    FourNineEightSevenDigits();
    QuietStep("4", Keys[8] + (Keys[7] + (Keys[6] + ("2" + ""))));
    WordStep(8, Keys[7] + (Keys[6] + ("2" + "")));
    WordStep(7, Keys[6] + ("2" + ""));
    WordStep(6, "2" + "");
    QuietStep("2", "");
    QuietStep("4", Values[8] + (Values[7] + (Values[6] + ("2" + ""))));
    QuietStep(Values[8], Values[7] + (Values[6] + ("2" + "")));
    QuietStep(Values[7], Values[6] + ("2" + ""));
    QuietStep(Values[6], "2" + "");
    DigitsAppend("4", Values[8] + (Values[7] + (Values[6] + ("2" + ""))));
    DigitsAppend(Values[8], Values[7] + (Values[6] + ("2" + "")));
    DigitsAppend(Values[7], Values[6] + ("2" + ""));
    DigitsAppend(Values[6], "2" + "");
    DigitsAppend("2", "");
  }

  lemma ZOneEightText()
    ensures "zoneight234" == "z" + (Keys[0] + ("igh" + ("t23" + ("4" + ""))))
    ensures Quiet("z", Keys[0] + ("igh" + ("t23" + ("4" + ""))))
    ensures Quiet("igh", "t23" + ("4" + ""))
    ensures Quiet("t23", "4" + "")
    ensures Quiet("4", "")
  {
  }

  lemma ZOneEightTextMore()
    ensures "z" + (Values[0] + ("igh" + ("t23" + ("4" + "")))) == "z1n" + (Keys[7] + ("234" + ""))
    ensures Quiet("z1n", Keys[7] + ("234" + ""))
    ensures Quiet("234", "")
  {
  }

  lemma ZOneEightDigits()
    ensures Digits("z1n") + (Digits(Values[7]) + (Digits("234") + "")) == "18234"
  {
    ReplacementDigit(7);
  }

  lemma ZOneEight()
    ensures LineValue("zoneight234") == Ok(14)
  {
    ZOneEightText();
    ZOneEightTextMore();
    ZOneEightDigits();
    QuietStep("z", Keys[0] + ("igh" + ("t23" + ("4" + ""))));
    WordStep(0, "igh" + ("t23" + ("4" + "")));
    QuietStep("igh", "t23" + ("4" + ""));
    QuietStep("t23", "4" + "");
    QuietStep("4", "");
    QuietStep("z1n", Keys[7] + ("234" + ""));
    WordStep(7, "234" + "");
    QuietStep("234", "");
    DigitsAppend("z1n", Values[7] + ("234" + ""));
    DigitsAppend(Values[7], "234" + "");
    DigitsAppend("234", "");
  }

  lemma SevenSixteenText()
    ensures "7pqrstsixteen" == "7pq" + ("rst" + (Keys[5] + ("tee" + ("n" + ""))))
    ensures Quiet("7pq", "rst" + (Keys[5] + ("tee" + ("n" + ""))))
    ensures Quiet("rst", Keys[5] + ("tee" + ("n" + "")))
    ensures Quiet("tee", "n" + "")
    ensures Quiet("n", "")
  {
  }

  lemma SevenSixteenTextMore()
    ensures Quiet("7pq", "rst" + (Values[5] + ("tee" + ("n" + ""))))
    ensures Quiet("rst", Values[5] + ("tee" + ("n" + "")))
    ensures Quiet(Values[5], "tee" + ("n" + ""))
  {
  }

  lemma SevenSixteenDigits()
    ensures Digits("7pq") + (Digits("rst") + (Digits(Values[5]) + (Digits("tee") + (Digits("n") + "")))) == "76"
  {
    ReplacementDigit(5);
  }

  lemma SevenSixteen()
    ensures LineValue("7pqrstsixteen") == Ok(76)
  {
    SevenSixteenText();
    SevenSixteenTextMore();
    SevenSixteenDigits();
    QuietStep("7pq", "rst" + (Keys[5] + ("tee" + ("n" + ""))));
    QuietStep("rst", Keys[5] + ("tee" + ("n" + "")));
    WordStep(5, "tee" + ("n" + ""));
    QuietStep("tee", "n" + "");
    QuietStep("n", "");
    QuietStep("7pq", "rst" + (Values[5] + ("tee" + ("n" + ""))));
    QuietStep("rst", Values[5] + ("tee" + ("n" + "")));
    QuietStep(Values[5], "tee" + ("n" + ""));
    DigitsAppend("7pq", "rst" + (Values[5] + ("tee" + ("n" + ""))));
    DigitsAppend("rst", Values[5] + ("tee" + ("n" + "")));
    DigitsAppend(Values[5], "tee" + ("n" + ""));
    DigitsAppend("tee", "n" + "");
    DigitsAppend("n", "");
  }
  /** The part 1 example lines are worth 12, 38, 15 and 77: 142 in all. */
  lemma Part1Total()
    ensures CalibrationSum(Part1Example) == Ok(142)
  {
    OneAbcTwo();
    PqrThreeStuEight();
    AOneBTwo();
    TrebSeven();
  }

  /** The part 2 example lines are worth 29, 83, 13, 24, 42, 14 and 76: 281 in all. */
  lemma Part2Total()
    ensures CalibrationSum(Part2Example) == Ok(281)
  {
    TwoOneNine();
    EightTwoThree();
    AbcOneTwoThree();
    XTwoOneThreeFour();
    FourNineEightSeven();
    ZOneEight();
    SevenSixteen();
  }
}
