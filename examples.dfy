/**
 A few concrete runs of the extractors, pinning down the edge cases the
 general lemmas describe: the strict length bound, windows with a non-letter,
 windows that collapse to the same key, and punctuation-only words.
 */
module Examples {
  import opened Ascii
  import opened Tokenizer
  import opened LetterNgrams
  import opened WordNgrams

  lemma LowerWindows()
    ensures Lower("aBc") == "abc" && Lower("Bcd") == "bcd" && Lower("ab") == "ab"
  {
    LowerAt("aBc");
    LowerAt("Bcd");
    LowerAt("ab");
  }

  /** A text of exactly `n` letters yields no n-gram. */
  lemma LetterBound()
    ensures LetterKeys("abc", 3) == []
  {
  }

  /** One letter more yields two n-grams, lower-cased. */
  lemma LetterWindows(t: string)
    requires t == "aBcd"
    ensures LetterKeys(t, 3) == ["abc", "bcd"]
  {
    assert t[0..3] == "aBc" && AllAlpha("aBc");
    assert t[1..4] == "Bcd" && AllAlpha("Bcd");
    LowerWindows();
    KeysUpToNext(t, 3, 0);
    assert KeysUpTo(t, 3, 1) == ["abc"];
    KeysUpToNext(t, 3, 1);
  }

  /** A window with a non-letter in it is skipped. */
  lemma LetterSkip(t: string)
    requires t == "ab c"
    ensures LetterKeys(t, 2) == ["ab"]
  {
    assert t[0..2] == "ab" && AllAlpha("ab");
    assert t[1..3] == "b " && "b "[1] == ' ';
    assert t[2..4] == " c" && " c"[0] == ' ';
    LowerWindows();
    KeysUpToNext(t, 2, 0);
    assert KeysUpTo(t, 2, 1) == ["ab"];
    KeysUpToNext(t, 2, 1);
    assert KeysUpTo(t, 2, 2) == ["ab"];
    KeysUpToNext(t, 2, 2);
  }

  lemma OneLeadingBlank()
    ensures Tokens(" to be\tor\n") == Tokens("to be\tor\n")
  {
    assert " to be\tor\n" == [] + [' '] + "to be\tor\n";
    TokensSplit([], ' ', "to be\tor\n");
  }

  /** Leading whitespace is skipped. */
  lemma LeadingBlanks()
    ensures Tokens("  to be\tor\n") == Tokens("to be\tor\n")
  {
    assert "  to be\tor\n" == [] + [' '] + " to be\tor\n";
    TokensSplit([], ' ', " to be\tor\n");
    OneLeadingBlank();
  }

  lemma TrailingNewline()
    ensures Tokens("or\n") == ["or"]
  {
    assert "or\n" == "or" + ['\n'] + [];
    TokensSplit("or", '\n', []);
    TokensOfWord("or");
  }

  lemma LastWords()
    ensures Tokens("be\tor\n") == ["be", "or"]
  {
    assert "be\tor\n" == "be" + ['\t'] + "or\n";
    TokensSplit("be", '\t', "or\n");
    TokensOfWord("be");
    TrailingNewline();
  }

  /** Every whitespace character separates words. */
  lemma Separators()
    ensures Tokens("to be\tor\n") == ["to", "be", "or"]
  {
    assert "to be\tor\n" == "to" + [' '] + "be\tor\n";
    TokensSplit("to", ' ', "be\tor\n");
    TokensOfWord("to");
    LastWords();
  }

  /** Whitespace runs separate words; none is empty. */
  lemma WordsOfText()
    ensures Tokens("  to be\tor\n") == ["to", "be", "or"]
  {
    LeadingBlanks();
    Separators();
  }

  lemma TokensOfStrays()
    ensures Tokens("A - b") == ["A", "-", "b"]
  {
    assert "A - b" == "A" + [' '] + "- b";
    TokensSplit("A", ' ', "- b");
    assert "- b" == "-" + [' '] + "b";
    TokensSplit("-", ' ', "b");
    TokensOfWord("A");
    TokensOfWord("-");
    TokensOfWord("b");
  }

  lemma StrayJoins()
    ensures Join(["A", "-"]) == "A -" && Join(["-", "b"]) == "- b"
  {
    assert Spaced(["A"]) == "A ";
    assert Spaced(["-"]) == "- ";
  }

  lemma StrayLower()
    ensures Lower("A -") == "a -" && Lower("- b") == "- b"
  {
    LowerAt("A -");
    LowerAt("- b");
  }

  lemma StrayClean()
    ensures Clean("a -") == "a " && Clean("- b") == " b"
  {
    assert "a -"[..2] == "a " && "a "[..1] == "a" && "a"[..0] == [];
    assert "- b"[..2] == "- " && "- "[..1] == "-" && "-"[..0] == [];
  }

  lemma FirstStray()
    ensures WindowKey(["A", "-", "b"], 0, 2) == "a "
  {
    assert ["A", "-", "b"][0..2] == ["A", "-"];
    StrayJoins();
    StrayLower();
    StrayClean();
  }

  lemma SecondStray()
    ensures WindowKey(["A", "-", "b"], 1, 2) == " b"
  {
    assert ["A", "-", "b"][1..3] == ["-", "b"];
    StrayJoins();
    StrayLower();
    StrayClean();
  }

  /** A punctuation-only word leaves its blank behind. */
  lemma WordStrays()
    ensures WordKeys("A - b", 2) == ["a ", " b"]
  {
    TokensOfStrays();
    FirstStray();
    SecondStray();
  }
}
