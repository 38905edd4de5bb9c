/**
 * The dating-app Profile: five fields fixed by the constructor, a list of hobbies that
 * only grows, and the summary sentence view_profile builds. std::to_string renders the
 * age in decimal, and the hobby list is punctuated by comparing the loop index with the
 * unsigned value hobbies.size() - 2.
 */
module DatingProfile {

  /** C++ int. */
  newtype int32 = x: int | -0x8000_0000 <= x < 0x8000_0000

  /** std::size_t arithmetic wraps modulo 2^64. */
  const SizeModulus: int := 0x1_0000_0000_0000_0000

  function Unsigned(x: int): (u: nat)
    ensures u < SizeModulus && (u - x) % SizeModulus == 0
    ensures 0 <= x < SizeModulus ==> u == x
  {
    x % SizeModulus
  }

  // ---------------------------------------------------------------------------
  // std::to_string for int
  // ---------------------------------------------------------------------------

  function DigitChar(d: nat): (c: char)
    requires d < 10
    ensures '0' <= c <= '9'
  {
    "0123456789"[d]
  }

  predicate IsDigits(s: string) {
    forall k :: 0 <= k < |s| ==> '0' <= s[k] <= '9'
  }

  /** The decimal digits of n, most significant first, without leading zeros. */
  function NatString(n: nat): (s: string)
    ensures |s| >= 1 && IsDigits(s)
    ensures s[0] == '0' ==> n == 0
  {
    if n < 10 then [DigitChar(n)] else NatString(n / 10) + [DigitChar(n % 10)]
  }

  function DecimalString(n: int): (s: string)
    ensures |s| >= 1
    ensures n < 0 <==> s[0] == '-'
  {
    if n < 0 then "-" + NatString(-n) else NatString(n)
  }

  /** The value of a string of decimal digits. */
  function ParseNat(s: string): nat
    requires IsDigits(s)
  {
    if s == [] then 0 else 10 * ParseNat(s[..|s| - 1]) + (s[|s| - 1] as int - '0' as int)
  }

  /** The value of an optionally negative decimal numeral. */
  function ParseDecimal(s: string): int
    requires |s| >= 1 && (s[0] == '-' ==> IsDigits(s[1..])) && (s[0] != '-' ==> IsDigits(s))
  {
    if s[0] == '-' then 0 - ParseNat(s[1..]) as int else ParseNat(s)
  }

  /** Concatenation regroups freely. */
  lemma Regroup(a: string, b: string, c: string, d: string)
    ensures a + (b + c + d) == a + b + c + d
  {
  }

  lemma Regroup3(a: string, b: string, c: string)
    ensures a + b + c == a + (b + c)
  {
  }

  lemma DigitValue(d: nat)
    requires d < 10
    ensures DigitChar(d) as int - '0' as int == d
  {
  }

  lemma {:induction false} NatStringRoundTrip(n: nat)
    ensures ParseNat(NatString(n)) == n
  {
    var s := NatString(n);
    if n < 10 {
      DigitValue(n);
      assert s[..|s| - 1] == [];
    } else {
      NatStringRoundTrip(n / 10);
      DigitValue(n % 10);
      assert s[..|s| - 1] == NatString(n / 10);
    }
  }

  /** to_string is read back as the same number. */
  lemma DecimalRoundTrip(n: int)
    ensures ParseDecimal(DecimalString(n)) == n
  {
    if n < 0 {
      NatStringRoundTrip(-n);
      assert DecimalString(n)[1..] == NatString(-n);
    } else {
      NatStringRoundTrip(n);
    }
  }

  // ---------------------------------------------------------------------------
  // The summary sentence
  // ---------------------------------------------------------------------------

  /** The sentence every summary starts with. */
  function Introduction(name: string, age: int32, city: string, country: string, pronouns: string): string
  {
    "Hi! My name is " + name + ". I live in " + city + " (" + country + "). I am " +
    DecimalString(age as int) + " years old and I use " + pronouns + " pronouns."
  }

  /** What follows hobby i of n: the index is compared with the unsigned n - 2. */
  function Separator(i: nat, n: nat): string
  {
    if i < Unsigned(n - 2) then ", " else if i == Unsigned(n - 2) then " and " else "."
  }

  /** The first k hobbies, each followed by its separator. */
  function Pieces(h: seq<string>, k: nat): string
    requires k <= |h|
  {
    if k == 0 then "" else Pieces(h, k - 1) + h[k - 1] + Separator(k - 1, |h|)
  }

  /** The hobby part of the summary; nothing when there are no hobbies. */
  function HobbyText(h: seq<string>): string
  {
    if |h| > 0 then "My hobbies are " + Pieces(h, |h|) else ""
  }

  /** Each string of the list followed by ", ". */
  function CommaList(s: seq<string>): string
  {
    if s == [] then "" else CommaList(s[..|s| - 1]) + s[|s| - 1] + ", "
  }

  lemma {:induction false} PiecesBeforeLastTwo(h: seq<string>, k: nat)
    requires 2 <= |h| < SizeModulus && k <= |h| - 2
    ensures Pieces(h, k) == CommaList(h[..k])
  {
    if k > 0 {
      PiecesBeforeLastTwo(h, k - 1);
      assert h[..k][..k - 1] == h[..k - 1];
    }
  }

  /** With two or more hobbies: all but the last two followed by ", ", then "a and b.". */
  lemma ManyHobbies(h: seq<string>)
    requires 2 <= |h| < SizeModulus
    ensures HobbyText(h) == "My hobbies are " + CommaList(h[..|h| - 2]) + h[|h| - 2] + " and " + h[|h| - 1] + "."
  {
    var n := |h|;
    PiecesBeforeLastTwo(h, n - 2);
    assert Separator(n - 2, n) == " and ";
    assert Separator(n - 1, n) == ".";
    var front := CommaList(h[..n - 2]) + h[n - 2] + " and ";
    calc {
      Pieces(h, n);
      Pieces(h, n - 1) + h[n - 1] + ".";
      front + h[n - 1] + ".";
    }
    Regroup("My hobbies are ", front, h[n - 1], ".");
    Regroup("My hobbies are ", CommaList(h[..n - 2]), h[n - 2], " and ");
  }

  /** With one hobby, size() - 2 wraps to 2^64 - 1, so the hobby is followed by ", " and the
    * sentence has no final period. */
  lemma OneHobby(h0: string)
    ensures HobbyText([h0]) == "My hobbies are " + h0 + ", "
  {
    assert Unsigned(1 - 2) == SizeModulus - 1;
    assert Pieces([h0], 1) == "" + h0 + ", ";
    Regroup("My hobbies are ", "", h0, ", ");
  }

  /** The separator the code evidently intends, with n - 2 as a signed number. */
  function IntendedSeparator(i: nat, n: nat): string
  {
    if i < n - 2 then ", " else if i == n - 2 then " and " else "."
  }

  function IntendedPieces(h: seq<string>, k: nat): string
    requires k <= |h|
  {
    if k == 0 then "" else IntendedPieces(h, k - 1) + h[k - 1] + IntendedSeparator(k - 1, |h|)
  }

  function IntendedHobbyText(h: seq<string>): string
  {
    if |h| > 0 then "My hobbies are " + IntendedPieces(h, |h|) else ""
  }

  /** The intended punctuation ends every non-empty list with a period, one hobby included,
    * and agrees with the code whenever there are at least two hobbies. */
  lemma {:induction false} IntendedEndsWithPeriod(h: seq<string>)
    requires 1 <= |h| < SizeModulus
    ensures IntendedHobbyText(h)[|IntendedHobbyText(h)| - 1] == '.'
    ensures |h| >= 2 ==> IntendedHobbyText(h) == HobbyText(h)
  {
    if |h| >= 2 {
      IntendedAgrees(h, |h|);
    }
  }

  lemma {:induction false} IntendedAgrees(h: seq<string>, k: nat)
    requires 2 <= |h| < SizeModulus && k <= |h|
    ensures IntendedPieces(h, k) == Pieces(h, k)
  {
    if k > 0 {
      IntendedAgrees(h, k - 1);
      assert Unsigned(|h| - 2) == |h| - 2;
    }
  }

  // ---------------------------------------------------------------------------
  // The class
  // ---------------------------------------------------------------------------

  class Profile {
    var name: string
    var age: int32
    var city: string
    var country: string
    var pronouns: string
    var hobbies: seq<string>

    constructor (userName: string, userAge: int32, userCity: string, userCountry: string, userPronouns: string)
      ensures name == userName && age == userAge && city == userCity
      ensures country == userCountry && pronouns == userPronouns
      ensures hobbies == []
    {
      name, age, city, country, pronouns := userName, userAge, userCity, userCountry, userPronouns;
      hobbies := [];
    }

    /** add_hobby: push_back on the hobby list. */
    method AddHobby(newHobby: string)
      modifies this
      ensures hobbies == old(hobbies) + [newHobby]
      ensures name == old(name) && age == old(age) && city == old(city)
      ensures country == old(country) && pronouns == old(pronouns)
    {
      hobbies := hobbies + [newHobby];
    }

    /** view_profile: the introduction, then the punctuated hobby list if there is one. */
    method ViewProfile() returns (summary: string)
      ensures summary == Introduction(name, age, city, country, pronouns) + HobbyText(hobbies)
    {
      var intro := Introduction(name, age, city, country, pronouns);
      summary := intro;
      if |hobbies| > 0 {
        summary := summary + "My hobbies are ";
        summary := AppendHobbies(summary, hobbies);
        Regroup3(intro, "My hobbies are ", Pieces(hobbies, |hobbies|));
      } else {
        assert summary == intro + "";
      }
    }
  }

  /** The loop of view_profile: each hobby is appended, then ", " while the index is below
    * the unsigned size() - 2, " and " at that index, and "." otherwise. */
  method AppendHobbies(start: string, hobbies: seq<string>) returns (summary: string)
    ensures summary == start + Pieces(hobbies, |hobbies|)
  {
    summary := start;
    var i := 0;
    while i < |hobbies|
      invariant 0 <= i <= |hobbies|
      invariant summary == start + Pieces(hobbies, i)
    {
      Regroup(start, Pieces(hobbies, i), hobbies[i], Separator(i, |hobbies|));
      if i < Unsigned(|hobbies| - 2) {
        summary := summary + hobbies[i];
        summary := summary + ", ";
      } else if i == Unsigned(|hobbies| - 2) {
        summary := summary + hobbies[i];
        summary := summary + " and ";
      } else {
        summary := summary + hobbies[i];
        summary := summary + ".";
      }
      i := i + 1;
    }
  }

  /** Without hobbies the summary is the introduction alone: it starts "Hi! My name is " and
    * ends "pronouns.". */
  lemma NoHobbies(name: string, age: int32, city: string, country: string, pronouns: string)
    ensures Introduction(name, age, city, country, pronouns) + HobbyText([]) == Introduction(name, age, city, country, pronouns)
    ensures var s := Introduction(name, age, city, country, pronouns);
      |s| >= 24 && s[..15] == "Hi! My name is " && s[|s| - 9..] == "pronouns."
  {
    var s := Introduction(name, age, city, country, pronouns);
    var head := "Hi! My name is " + name + ". I live in " + city + " (" + country + "). I am " +
      DecimalString(age as int) + " years old and I use " + pronouns;
    assert s == head + " pronouns.";
    assert s[|s| - 9..] == " pronouns."[1..];
    assert s[..15] == "Hi! My name is ";
  }
}
