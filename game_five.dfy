/**
 * The `build_cubeset` unit test of `src/solutions/two.rs` on its own string:
 * the Game 5 record spelled out character for character.
 */
module GameFive {
  import opened CubeGame

  /** The test's input line. */
  const GameFiveLine: string :=
    "Game 5: 9 green, 1 red; 18 green, 2 red, 7 blue; 1 blue, 9 green, 3 red; 3 red, 15 blue, 18 green"

  /** The numerals the line uses. */
  lemma SmallNumerals()
    ensures Numeral(1) == "1" && Numeral(2) == "2" && Numeral(3) == "3" && Numeral(5) == "5"
    ensures Numeral(7) == "7" && Numeral(9) == "9"
    ensures Numeral(15) == "15" && Numeral(18) == "18"
  {
    assert Numeral(15) == Numeral(1) + ['5'];
    assert Numeral(18) == Numeral(1) + ['8'];
  }

  /** The text of two stretches of draws is the text of each in turn. */
  lemma {:induction false} DrawsTextAppend(a: seq<Draw>, b: seq<Draw>)
    ensures DrawsText(a + b) == DrawsText(a) + DrawsText(b)
  {
    if a == [] {
      assert a + b == b;
    } else {
      assert (a + b)[0] == a[0];
      assert (a + b)[1..] == a[1..] + b;
      DrawsTextAppend(a[1..], b);
    }
  }

  /** The text of a handful of two draws. */
  lemma TwoDrawsText(a: Draw, b: Draw)
    ensures DrawsText([a, b]) == DrawText(a) + DrawText(b)
  {
    assert [a, b][1..] == [b];
    assert [b][1..] == [];
    assert DrawsText([b]) == DrawText(b) + DrawsText([]);
    assert DrawText(b) + "" == DrawText(b);
  }

  /** The text of a handful of three draws. */
  lemma ThreeDrawsText(a: Draw, b: Draw, c: Draw)
    ensures DrawsText([a, b, c]) == DrawText(a) + DrawText(b) + DrawText(c)
  {
    assert [a, b, c][1..] == [b, c];
    TwoDrawsText(b, c);
  }

  /** The draws of the first handful of Game 5. */
  lemma HandfulOneDraws()
    ensures DrawText(HandfulOne[0]) == " 9 green,"
    ensures DrawText(HandfulOne[1]) == " 1 red;"
  {
    SmallNumerals();
  }

  /** The text of the first handful of Game 5. */
  lemma HandfulOneText()
    ensures DrawsText(HandfulOne) == " 9 green, 1 red;"
  {
    HandfulOneDraws();
    TwoDrawsText(HandfulOne[0], HandfulOne[1]);
  }

  /** The draws of the second handful of Game 5. */
  lemma HandfulTwoDraws()
    ensures DrawText(HandfulTwo[0]) == " 18 green,"
    ensures DrawText(HandfulTwo[1]) == " 2 red,"
    ensures DrawText(HandfulTwo[2]) == " 7 blue;"
  {
    SmallNumerals();
  }

  /** The text of the second handful of Game 5. */
  lemma HandfulTwoText()
    ensures DrawsText(HandfulTwo) == " 18 green, 2 red, 7 blue;"
  {
    HandfulTwoDraws();
    ThreeDrawsText(HandfulTwo[0], HandfulTwo[1], HandfulTwo[2]);
  }

  /** The draws of the third handful of Game 5. */
  lemma HandfulThreeDraws()
    ensures DrawText(HandfulThree[0]) == " 1 blue,"
    ensures DrawText(HandfulThree[1]) == " 9 green,"
    ensures DrawText(HandfulThree[2]) == " 3 red;"
  {
    SmallNumerals();
  }

  /** The text of the third handful of Game 5. */
  lemma HandfulThreeText()
    ensures DrawsText(HandfulThree) == " 1 blue, 9 green, 3 red;"
  {
    HandfulThreeDraws();
    ThreeDrawsText(HandfulThree[0], HandfulThree[1], HandfulThree[2]);
  }

  /** The draws of the fourth handful of Game 5. */
  lemma HandfulFourDraws()
    ensures DrawText(HandfulFour[0]) == " 3 red,"
    ensures DrawText(HandfulFour[1]) == " 15 blue,"
    ensures DrawText(HandfulFour[2]) == " 18 green"
  {
    SmallNumerals();
  }

  /** The text of the fourth handful of Game 5. */
  lemma HandfulFourText()
    ensures DrawsText(HandfulFour) == " 3 red, 15 blue, 18 green"
  {
    HandfulFourDraws();
    ThreeDrawsText(HandfulFour[0], HandfulFour[1], HandfulFour[2]);
  }

  /** The test's line up to the end of its first handful. */
  lemma UpToFirstText()
    ensures "Game 5:" + " 9 green, 1 red;" == "Game 5: 9 green, 1 red;"
  {
  }

  /** The test's line up to the end of its second handful. */
  lemma UpToSecondText()
    ensures "Game 5: 9 green, 1 red;" + " 18 green, 2 red, 7 blue;"
      == "Game 5: 9 green, 1 red; 18 green, 2 red, 7 blue;"
  {
  }

  /** The test's line up to the end of its third handful. */
  lemma UpToThirdText()
    ensures "Game 5: 9 green, 1 red; 18 green, 2 red, 7 blue;" + " 1 blue, 9 green, 3 red;"
      == "Game 5: 9 green, 1 red; 18 green, 2 red, 7 blue; 1 blue, 9 green, 3 red;"
  {
  }

  /** The test's line up to the second draw of its fourth handful. */
  lemma UpToFourthText()
    ensures "Game 5: 9 green, 1 red; 18 green, 2 red, 7 blue; 1 blue, 9 green, 3 red;" + " 3 red, 15 blue,"
      == "Game 5: 9 green, 1 red; 18 green, 2 red, 7 blue; 1 blue, 9 green, 3 red; 3 red, 15 blue,"
  {
  }

  /** The whole test line, ending with the last draw. */
  lemma UpToLastText()
    ensures "Game 5: 9 green, 1 red; 18 green, 2 red, 7 blue; 1 blue, 9 green, 3 red; 3 red, 15 blue," + " 18 green"
      == GameFiveLine
  {
  }

  /** The fourth handful in two pieces. */
  lemma FourthInTwoText()
    ensures " 3 red, 15 blue," + " 18 green" == " 3 red, 15 blue, 18 green"
  {
  }

  /** Regrouping a header and four pieces. */
  lemma RegroupFour(h: string, a: string, b: string, c: string, d: string)
    ensures h + (((a + b) + c) + d) == (((h + a) + b) + c) + d
  {
  }

  /** The structured record of Game 5 spells the test's line exactly. */
  lemma GameFiveText()
    ensures GameLine(5, GameFiveDraws) == GameFiveLine
  {
    SmallNumerals();
    assert "Game " + Numeral(5) + ":" == "Game 5:";
    HandfulOneText();
    HandfulTwoText();
    HandfulThreeText();
    HandfulFourText();
    DrawsTextAppend(HandfulOne + HandfulTwo + HandfulThree, HandfulFour);
    DrawsTextAppend(HandfulOne + HandfulTwo, HandfulThree);
    DrawsTextAppend(HandfulOne, HandfulTwo);
    FourthInTwoText();
    RegroupFour("Game 5:", DrawsText(HandfulOne), DrawsText(HandfulTwo), DrawsText(HandfulThree), DrawsText(HandfulFour));
    UpToFirstText();
    UpToSecondText();
    UpToThirdText();
    var upToThird := "Game 5: 9 green, 1 red; 18 green, 2 red, 7 blue; 1 blue, 9 green, 3 red;";
    assert upToThird + (" 3 red, 15 blue," + " 18 green") == (upToThird + " 3 red, 15 blue,") + " 18 green";
    UpToFourthText();
    UpToLastText();
  }

  /** `build_cubeset`: the line builds, with 3 red, 18 green and 15 blue. */
  lemma BuildCubeset()
    ensures Buildable(GameFiveLine)
    ensures Build(GameFiveLine).red == 3 && Build(GameFiveLine).green == 18 && Build(GameFiveLine).blue == 15
  {
    GameFiveText();
    BuildGameFive(5);
  }
}
