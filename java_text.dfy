/**
 * The pieces of java.lang.String the song loader relies on:
 * split(" ") with its limit-zero rules, toUpperCase restricted to ASCII,
 * and the decimal text an int takes in string concatenation.
 */
module JavaText {

  /** Every character of s is a space. */
  predicate AllSpaces(s: string) {
    forall i :: 0 <= i < |s| ==> s[i] == ' '
  }

  /** The fields separated by single spaces: the inverse of Pieces. */
  function Join(fields: seq<string>): string {
    if fields == [] then ""
    else if |fields| == 1 then fields[0]
    else fields[0] + " " + Join(fields[1..])
  }

  /** Cut s at every space, keeping every (possibly empty) field. */
  function Pieces(s: string): (r: seq<string>)
    ensures |r| >= 1
    ensures forall k :: 0 <= k < |r| ==> ' ' !in r[k]
    decreases |s|
  {
    if s == [] then [""]
    else if s[0] == ' ' then [""] + Pieces(s[1..])
    else
      var rest := Pieces(s[1..]);
      [[s[0]] + rest[0]] + rest[1..]
  }

  /** Remove the empty fields at the end, as split does with limit zero. */
  function DropTrailingEmpty(fields: seq<string>): (r: seq<string>)
    ensures r <= fields
    ensures r == [] || r[|r| - 1] != ""
    ensures forall k :: |r| <= k < |fields| ==> fields[k] == ""
  {
    if fields == [] || fields[|fields| - 1] != "" then fields
    else DropTrailingEmpty(fields[..|fields| - 1])
  }

  /**
   * s.split(" ") in Java: when no space occurs the result is the string
   * itself (so "" gives [""]); otherwise the fields between spaces with the
   * trailing empty ones removed (so a line of spaces only gives []).
   */
  function Split(s: string): (r: seq<string>)
    ensures forall k :: 0 <= k < |r| ==> ' ' !in r[k]
  {
    if ' ' !in s then [s] else DropTrailingEmpty(Pieces(s))
  }

  lemma {:induction false} JoinCons(f: string, fields: seq<string>)
    requires fields != []
    ensures Join([f] + fields) == f + " " + Join(fields)
  {
    assert ([f] + fields)[1..] == fields;
  }

  lemma {:induction false} JoinSnoc(fields: seq<string>, x: string)
    ensures Join(fields + [x]) == if fields == [] then x else Join(fields) + " " + x
    decreases |fields|
  {
    if |fields| >= 2 {
      assert (fields + [x])[1..] == fields[1..] + [x];
      JoinSnoc(fields[1..], x);
    } else if |fields| == 1 {
      assert (fields + [x])[1..] == [x];
    }
  }

  lemma {:induction false} JoinPieces(s: string)
    ensures Join(Pieces(s)) == s
    decreases |s|
  {
    if s == [] {
    } else if s[0] == ' ' {
      JoinPieces(s[1..]);
      JoinCons("", Pieces(s[1..]));
    } else {
      var rest := Pieces(s[1..]);
      JoinPieces(s[1..]);
      if |rest| == 1 {
      } else {
        JoinCons(rest[0], rest[1..]);
        assert [rest[0]] + rest[1..] == rest;
        assert Join(rest) == rest[0] + " " + Join(rest[1..]);
        JoinCons([s[0]] + rest[0], rest[1..]);
      }
    }
  }

  /** A prefix followed by spaces stays one when a space is appended. */
  lemma PrefixThenSpace(s: string, p: string)
    requires |p| <= |s| && s[..|p|] == p && AllSpaces(s[|p|..])
    ensures |p| <= |s + " "| && (s + " ")[..|p|] == p && AllSpaces((s + " ")[|p|..])
  {
    assert (s + " ")[..|p|] == s[..|p|];
    assert (s + " ")[|p|..] == s[|p|..] + " ";
  }

  /** Joining what is left after dropping trailing empty fields loses only trailing spaces. */
  lemma {:induction false} JoinDropTrailing(fields: seq<string>)
    ensures var j := Join(DropTrailingEmpty(fields));
            |j| <= |Join(fields)| && Join(fields)[..|j|] == j && AllSpaces(Join(fields)[|j|..])
    decreases |fields|
  {
    if fields == [] || fields[|fields| - 1] != "" {
    } else {
      var init := fields[..|fields| - 1];
      JoinDropTrailing(init);
      assert init + [""] == fields;
      JoinSnoc(init, "");
      assert DropTrailingEmpty(fields) == DropTrailingEmpty(init);
      if init != [] {
        PrefixThenSpace(Join(init), Join(DropTrailingEmpty(init)));
      }
    }
  }

  lemma {:induction false} PiecesOfSpaces(s: string)
    requires AllSpaces(s)
    ensures forall k :: 0 <= k < |Pieces(s)| ==> Pieces(s)[k] == ""
    decreases |s|
  {
    if s != [] {
      PiecesOfSpaces(s[1..]);
    }
  }

  lemma {:induction false} JoinOfEmpties(fields: seq<string>)
    requires forall k :: 0 <= k < |fields| ==> fields[k] == ""
    ensures AllSpaces(Join(fields))
    decreases |fields|
  {
    if |fields| >= 2 {
      JoinOfEmpties(fields[1..]);
    }
  }

  /**
   * Split loses nothing but trailing spaces: rejoining its fields gives a
   * prefix of s, and what follows that prefix is spaces only. Without a
   * space in s the single field is s itself; with one, the last field kept
   * is never empty.
   */
  lemma SplitRejoins(s: string)
    ensures var j := Join(Split(s));
            |j| <= |s| && s[..|j|] == j && AllSpaces(s[|j|..])
    ensures ' ' !in s ==> Split(s) == [s]
    ensures ' ' in s ==> Split(s) == [] || Split(s)[|Split(s)| - 1] != ""
  {
    if ' ' in s {
      JoinPieces(s);
      JoinDropTrailing(Pieces(s));
    }
  }

  /** Split yields no field at all exactly for a non-empty line of spaces. */
  lemma SplitEmptyIff(s: string)
    ensures |Split(s)| == 0 <==> s != "" && AllSpaces(s)
  {
    if s != "" && AllSpaces(s) {
      assert s[0] == ' ';
      PiecesOfSpaces(s);
    }
    if |Split(s)| == 0 {
      assert ' ' in s;
      JoinPieces(s);
      JoinOfEmpties(Pieces(s));
    }
  }

  /** An empty line is one empty field. */
  lemma SplitBlank()
    ensures Split("") == [""]
  {
  }

  /** A two-letter field, one space and a one-letter field split into those two fields. */
  lemma SplitTwoFields(a: char, b: char, c: char)
    requires a != ' ' && b != ' ' && c != ' '
    ensures Split([a, b, ' ', c]) == [[a, b], [c]]
  {
    var line := [a, b, ' ', c];
    assert line[2] == ' ';
    assert Pieces([c]) == [[c]] by { assert [c][1..] == ""; assert [c] + "" == [c]; }
    assert Pieces([' ', c]) == ["", [c]] by { assert [' ', c][1..] == [c]; }
    assert Pieces([b, ' ', c]) == [[b], [c]] by { assert [b, ' ', c][1..] == [' ', c]; assert [b] + "" == [b]; }
    assert Pieces(line) == [[a, b], [c]] by { assert line[1..] == [b, ' ', c]; assert [a] + [b] == [a, b]; }
  }

  /** A double space leaves an empty field between its neighbours. */
  lemma SplitDoubleSpace()
    ensures Split("A4  4") == ["A4", "", "4"]
  {
    assert "4"[1..] == "" && Pieces("") == [""];
    assert ['4'] + "" == "4" && [""][1..] == [];
    assert Pieces("4") == ["4"];
    assert " 4"[1..] == "4";
    assert Pieces(" 4") == ["", "4"];
    assert "  4"[1..] == " 4";
    assert Pieces("  4") == ["", "", "4"];
    assert "4  4"[1..] == "  4";
    assert Pieces("4  4") == ["4", "", "4"];
    assert "A4  4"[1..] == "4  4";
    assert ['A'] + "4" == "A4" && ["4", "", "4"][1..] == ["", "4"];
    assert Pieces("A4  4") == ["A4", "", "4"];
  }

  /** A line of spaces only has no field at all. */
  lemma SplitSpacesOnly()
    ensures Split("   ") == []
  {
    assert ' ' in "   " by { assert "   "[0] == ' '; }
    PiecesOfSpaces("   ");
  }

  /** ASCII upper-casing of one character. */
  function UpperChar(c: char): char {
    if 'a' <= c <= 'z' then (c as int - 32) as char else c
  }

  /**
   * s.toUpperCase() for ASCII text: each lower-case letter becomes the
   * upper-case one, every other character is kept, and no lower-case
   * letter is left.
   */
  function ToUpperAscii(s: string): (r: string)
    ensures |r| == |s|
    ensures forall i :: 0 <= i < |s| && 'a' <= s[i] <= 'z' ==> r[i] as int == s[i] as int - 'a' as int + 'A' as int
    ensures forall i :: 0 <= i < |s| && !('a' <= s[i] <= 'z') ==> r[i] == s[i]
    ensures forall i :: 0 <= i < |r| ==> !('a' <= r[i] <= 'z')
  {
    seq(|s|, i requires 0 <= i < |s| => UpperChar(s[i]))
  }

  function Digit(d: nat): char
    requires d < 10
  {
    "0123456789"[d]
  }

  /**
   * The decimal text of n, as Java prints an int in string concatenation:
   * digits only, and a leading zero only in "0" itself.
   */
  function DecimalString(n: nat): (r: string)
    ensures |r| >= 1
    ensures forall i :: 0 <= i < |r| ==> '0' <= r[i] <= '9'
    ensures r[0] == '0' ==> n == 0
    decreases n
  {
    if n < 10 then [Digit(n)] else DecimalString(n / 10) + [Digit(n % 10)]
  }

  /** The number a string of decimal digits denotes. */
  function DecimalValue(s: string): nat
    requires forall i :: 0 <= i < |s| ==> '0' <= s[i] <= '9'
  {
    if s == [] then 0
    else DecimalValue(s[..|s| - 1]) * 10 + (s[|s| - 1] as int - '0' as int)
  }

  /** The decimal text of a line number reads back as that number. */
  lemma {:induction false} DecimalRoundTrip(n: nat)
    ensures DecimalValue(DecimalString(n)) == n
    decreases n
  {
    if n >= 10 {
      var s := DecimalString(n);
      DecimalRoundTrip(n / 10);
      assert s[..|s| - 1] == DecimalString(n / 10);
    }
  }

  lemma DigitOfChar(c: char)
    requires '0' <= c <= '9'
    ensures Digit(c as int - '0' as int) == c
  {
  }

  lemma DivModTen(a: nat, d: nat)
    requires d < 10
    ensures (a * 10 + d) / 10 == a && (a * 10 + d) % 10 == d
  {
  }

  /** A digit string without a leading zero (other than "0") is the decimal text of its value. */
  lemma {:induction false} DecimalUnique(s: string)
    requires |s| >= 1 && forall i :: 0 <= i < |s| ==> '0' <= s[i] <= '9'
    requires s[0] == '0' ==> |s| == 1
    ensures s == DecimalString(DecimalValue(s))
    decreases |s|
  {
    var init := s[..|s| - 1];
    var last := s[|s| - 1];
    var d := last as int - '0' as int;
    assert DecimalValue(s) == DecimalValue(init) * 10 + d;
    DigitOfChar(last);
    if |s| == 1 {
      assert init == [];
    } else {
      DecimalUnique(init);
      assert init[0] == s[0];
      var n := DecimalValue(s);
      DivModTen(DecimalValue(init), d);
      assert n >= 10;
      assert DecimalString(n) == DecimalString(n / 10) + [Digit(n % 10)];
      assert s == init + [last];
    }
  }
}
