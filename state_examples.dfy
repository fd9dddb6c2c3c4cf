/** Worked examples of state normalisation. */
module StateExamples {
  import opened Wrappers
  import opened Text
  import opened StateCodes

  lemma StripNy()
    ensures Strip(" ny ") == "ny"
  {
    TrimLeftNy();
    TrimRightNy();
  }

  lemma TrimLeftNy()
    ensures TrimLeft(" ny ") == "ny "
  {
    var padded, right := " ny ", "ny ";
    assert IsSpace(padded[0]) && padded[1..] == right;
    assert !IsSpace(right[0]);
  }

  lemma TrimRightNy()
    ensures TrimRight("ny ") == "ny"
  {
    var right, word := "ny ", "ny";
    assert IsSpace(right[2]) && right[..2] == word;
    assert !IsSpace(word[1]);
  }

  lemma UpperNy()
    ensures Upper("ny") == "NY"
  {
  }

  lemma NewYorkIsCode()
    ensures CodeToName("NY") == Some("New York")
  {
  }

  /** A lower-case code with surrounding blanks is found. */
  lemma NormalizeCodeExample()
    ensures NormalizeState(" ny ") == Ok("NY")
  {
    StripNy();
    UpperNy();
    NewYorkIsCode();
    NormalizeCode(" ny ", "NY");
  }

  lemma NewMexicoWords()
    ensures NoSpace("new") && NoSpace("mexico")
    ensures Lower("new") == "new" && Lower("mexico") == "mexico"
  {
  }

  lemma NewMexicoName()
    ensures CodeToName("NM") == Some("New Mexico")
    ensures NormalizeKey("New Mexico") == "new mexico"
  {
    NewMexicoCode();
    NameIsClean("NM");
    NewMexicoLower();
  }

  lemma NewMexicoCode()
    ensures CodeToName("NM") == Some("New Mexico")
  {
  }

  lemma NewMexicoLower()
    ensures Lower("New Mexico") == "new mexico"
  {
    var low := Lower("New Mexico");
    assert low[0] == 'n' && low[1] == 'e' && low[2] == 'w' && low[3] == ' ' && low[4] == 'm';
    assert low[5] == 'e' && low[6] == 'x' && low[7] == 'i' && low[8] == 'c' && low[9] == 'o';
  }

  lemma NewMexicoSpacedClean(k: nat)
    requires k >= 1
    ensures Strip("new" + Spaces(k) + "mexico") == "new" + Spaces(k) + "mexico"
    ensures Lower("new" + Spaces(k) + "mexico") == "new" + Spaces(k) + "mexico"
  {
    var input := "new" + Spaces(k) + "mexico";
    NewMexicoWords();
    assert input[0] == 'n' && input[|input| - 1] == 'o';
    StripClean(input);
    assert forall i :: 0 <= i < |input| ==> LowerChar(input[i]) == input[i];
  }

  lemma NewMexicoSpacedKey(k: nat)
    requires k >= 1
    ensures NormalizeKey("new" + Spaces(k) + "mexico") == "new mexico"
  {
    var input := "new" + Spaces(k) + "mexico";
    NewMexicoSpacedClean(k);
    NewMexicoSpacedCollapse(k);
    KeyOfLowerText(input, "new mexico");
  }

  lemma NewMexicoSpacedCollapse(k: nat)
    requires k >= 1
    ensures CollapseSpace("new" + Spaces(k) + "mexico") == "new mexico"
  {
    NewMexicoWords();
    CollapseRun("new", k, "mexico");
    NewMexicoJoin();
  }

  lemma KeyOfLowerText(input: string, key: string)
    requires Lower(Strip(input)) == input && CollapseSpace(input) == key
    ensures NormalizeKey(input) == key
  {
  }

  lemma NewMexicoJoin()
    ensures "new" + " " + "mexico" == "new mexico"
  {
  }

  /** "new", any run of blanks, then "mexico": the name of NM, whatever the spacing. */
  lemma NormalizeNameExample(k: nat)
    requires k >= 1
    ensures NormalizeState("new" + Spaces(k) + "mexico") == Ok("NM")
  {
    NewMexicoSpacedClean(k);
    NewMexicoSpacedKey(k);
    NewMexicoName();
    NormalizeName("new" + Spaces(k) + "mexico", "NM");
  }

  lemma NormalizeEmptyExamples()
    ensures NormalizeState("") == Err(EmptyState)
    ensures NormalizeState(" \t") == Err(EmptyState)
  {
    assert " \t"[1..] == "\t";
    assert "\t"[1..] == [];
    assert TrimLeft(" \t") == TrimLeft("\t") == TrimLeft([]);
  }
}
