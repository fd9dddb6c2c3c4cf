/**
 * US state, territory and Canadian province codes (state_codes.py): the fixed
 * code table, its name index, input normalisation and the NumberBarn search
 * URL built from a normalised state.
 */
module StateCodes {
  import opened Wrappers
  import opened Text
  import opened UrlEncoding

  /** `CODE_TO_NAME.get(code)`: the 69 NANP regions, keyed by two-letter code. */
  function CodeToName(code: string): Option<string> {
    if |code| != 2 then None
    else match code[0]
      case 'A' =>
        (match code[1]
        case 'B' => Some("Alberta")
        case 'K' => Some("Alaska")
        case 'L' => Some("Alabama")
        case 'R' => Some("Arkansas")
        case 'S' => Some("American Samoa")
        case 'Z' => Some("Arizona")
        case _ => None)
      case 'B' =>
        (match code[1]
        case 'C' => Some("British Columbia")
        case _ => None)
      case 'C' =>
        (match code[1]
        case 'A' => Some("California")
        case 'O' => Some("Colorado")
        case 'T' => Some("Connecticut")
        case _ => None)
      case 'D' =>
        (match code[1]
        case 'C' => Some("District of Columbia")
        case 'E' => Some("Delaware")
        case _ => None)
      case 'F' =>
        (match code[1]
        case 'L' => Some("Florida")
        case _ => None)
      case 'G' =>
        (match code[1]
        case 'A' => Some("Georgia")
        case 'U' => Some("Guam")
        case _ => None)
      case 'H' =>
        (match code[1]
        case 'I' => Some("Hawaii")
        case _ => None)
      case 'I' =>
        (match code[1]
        case 'A' => Some("Iowa")
        case 'D' => Some("Idaho")
        case 'L' => Some("Illinois")
        case 'N' => Some("Indiana")
        case _ => None)
      case 'K' =>
        (match code[1]
        case 'S' => Some("Kansas")
        case 'Y' => Some("Kentucky")
        case _ => None)
      case 'L' =>
        (match code[1]
        case 'A' => Some("Louisiana")
        case _ => None)
      case 'M' =>
        (match code[1]
        case 'A' => Some("Massachusetts")
        case 'B' => Some("Manitoba")
        case 'D' => Some("Maryland")
        case 'E' => Some("Maine")
        case 'I' => Some("Michigan")
        case 'N' => Some("Minnesota")
        case 'O' => Some("Missouri")
        case 'P' => Some("Northern Mariana Islands")
        case 'S' => Some("Mississippi")
        case 'T' => Some("Montana")
        case _ => None)
      case 'N' =>
        (match code[1]
        case 'B' => Some("New Brunswick")
        case 'C' => Some("North Carolina")
        case 'D' => Some("North Dakota")
        case 'E' => Some("Nebraska")
        case 'H' => Some("New Hampshire")
        case 'J' => Some("New Jersey")
        case 'L' => Some("Newfoundland and Labrador")
        case 'M' => Some("New Mexico")
        case 'S' => Some("Nova Scotia")
        case 'T' => Some("Northwest Territories")
        case 'U' => Some("Nunavut")
        case 'V' => Some("Nevada")
        case 'Y' => Some("New York")
        case _ => None)
      case 'O' =>
        (match code[1]
        case 'H' => Some("Ohio")
        case 'K' => Some("Oklahoma")
        case 'N' => Some("Ontario")
        case 'R' => Some("Oregon")
        case _ => None)
      case 'P' =>
        (match code[1]
        case 'A' => Some("Pennsylvania")
        case 'E' => Some("Prince Edward Island")
        case 'R' => Some("Puerto Rico")
        case _ => None)
      case 'Q' =>
        (match code[1]
        case 'C' => Some("Quebec")
        case _ => None)
      case 'R' =>
        (match code[1]
        case 'I' => Some("Rhode Island")
        case _ => None)
      case 'S' =>
        (match code[1]
        case 'C' => Some("South Carolina")
        case 'D' => Some("South Dakota")
        case 'K' => Some("Saskatchewan")
        case _ => None)
      case 'T' =>
        (match code[1]
        case 'N' => Some("Tennessee")
        case 'X' => Some("Texas")
        case _ => None)
      case 'U' =>
        (match code[1]
        case 'T' => Some("Utah")
        case _ => None)
      case 'V' =>
        (match code[1]
        case 'A' => Some("Virginia")
        case 'I' => Some("U.S. Virgin Islands")
        case 'T' => Some("Vermont")
        case _ => None)
      case 'W' =>
        (match code[1]
        case 'A' => Some("Washington")
        case 'I' => Some("Wisconsin")
        case 'V' => Some("West Virginia")
        case 'Y' => Some("Wyoming")
        case _ => None)
      case 'Y' =>
        (match code[1]
        case 'T' => Some("Yukon")
        case _ => None)
      case _ => None
  }

  /** `_normalize_key`: strip, lower-case, and turn every whitespace run into one space. */
  function NormalizeKey(v: string): (r: string)
    ensures NoOuterSpace(r) && SingleSpaced(r) && HasNoUpper(r)
  {
    NormalizeKeyShape(v);
    CollapseSpace(Lower(Strip(v)))
  }

  lemma NormalizeKeyShape(v: string)
    ensures var r := CollapseSpace(Lower(Strip(v)));
            NoOuterSpace(r) && SingleSpaced(r) && HasNoUpper(r)
  {
    var lowered := Lower(Strip(v));
    assert NoOuterSpace(lowered) by {
      StripShape(v);
      LowerKeepsSpacing(Strip(v));
    }
    assert HasNoUpper(lowered) by {
      LowerHasNoUpper(Strip(v));
    }
    CollapseIsSingleSpaced(lowered);
    CollapseKeepsNoUpper(lowered);
  }

  lemma {:induction false} CollapseKeepsNoUpper(s: string)
    requires HasNoUpper(s)
    ensures HasNoUpper(CollapseSpace(s))
  {
    if s != [] {
      CollapseKeepsNoUpper(s[1..]);
    }
  }

  /** Normalising a key a second time changes nothing. */
  lemma NormalizeKeyIdempotent(v: string)
    ensures NormalizeKey(NormalizeKey(v)) == NormalizeKey(v)
  {
    var k := NormalizeKey(v);
    StripClean(k);
    LowerOfLower(k);
    CollapseSingleSpaced(k);
  }

  /** Surrounding whitespace never matters to the key. */
  lemma NormalizeKeyOfStrip(v: string)
    ensures NormalizeKey(Strip(v)) == NormalizeKey(v)
  {
    StripIdempotent(v);
  }

  /**
   * The one table code whose name lower-cases to `key`, if any: the table's
   * names are told apart by a few of their characters.
   */
  function NameCandidate(key: string): Option<string> {
    if |key| < 4 then None
    else
      match key[2]
      case 'a' =>
        (match key[0]
        case 'a' =>
          (match key[3]
          case 'b' => Some("AL")
          case 's' => Some("AK")
          case _ => None)
        case 'g' => Some("GU")
        case 'i' => Some("ID")
        case 'u' => Some("UT")
        case _ => None)
      case 'b' =>
        (match key[0]
        case 'a' => Some("AB")
        case 'n' => Some("NE")
        case _ => None)
      case 'c' => Some("MI")
      case 'd' => Some("IN")
      case 'e' =>
        (match key[0]
        case 'a' => Some("AS")
        case 'o' => Some("OR")
        case 'p' => Some("PR")
        case 'q' => Some("QC")
        case _ => None)
      case 'i' =>
        (match key[0]
        case 'a' => Some("AZ")
        case 'b' => Some("BC")
        case 'm' => Some("ME")
        case 'o' => Some("OH")
        case 'p' => Some("PE")
        case _ => None)
      case 'k' =>
        (match key[0]
        case 'a' => Some("AR")
        case 'y' => Some("YT")
        case _ => None)
      case 'l' =>
        (match key[1]
        case 'a' => Some("CA")
        case 'e' => Some("DE")
        case 'k' => Some("OK")
        case 'l' => Some("IL")
        case 'o' => Some("CO")
        case _ => None)
      case 'n' =>
        (match key[0]
        case 'c' => Some("CT")
        case 'k' =>
          (match key[1]
          case 'a' => Some("KS")
          case 'e' => Some("KY")
          case _ => None)
        case 'm' =>
          (match key[1]
          case 'a' => Some("MB")
          case 'i' => Some("MN")
          case 'o' => Some("MT")
          case _ => None)
        case 'n' => Some("NU")
        case 'p' => Some("PA")
        case 't' => Some("TN")
        case _ => None)
      case 'o' =>
        (match key[0]
        case 'f' => Some("FL")
        case 'g' => Some("GA")
        case 'r' => Some("RI")
        case 'w' => Some("WY")
        case _ => None)
      case 'r' =>
        (if |key| <= 6 then None else
        match key[6]
        case 'c' => Some("NC")
        case 'd' => Some("ND")
        case 'e' => Some("NT")
        case 'i' => Some("VA")
        case 'n' => Some("MD")
        case 'r' => Some("MP")
        case 't' => Some("VT")
        case _ => None)
      case 's' =>
        (if |key| <= 5 then None else
        match key[5]
        case 'c' => Some("MA")
        case 'i' => Some("DC")
        case 'n' =>
          (match key[1]
          case 'a' => Some("WA")
          case 'i' => Some("WI")
          case _ => None)
        case 's' => Some("MS")
        case 't' => Some("SK")
        case 'u' => Some("MO")
        case 'v' =>
          (match key[0]
          case 'u' => Some("VI")
          case 'w' => Some("WV")
          case _ => None)
        case _ => None)
      case 't' => Some("ON")
      case 'u' =>
        (if |key| <= 6 then None else
        match key[6]
        case 'a' => Some("LA")
        case 'c' => Some("SC")
        case 'd' => Some("SD")
        case _ => None)
      case 'v' =>
        (match key[1]
        case 'e' => Some("NV")
        case 'o' => Some("NS")
        case _ => None)
      case 'w' =>
        (match key[3]
        case ' ' =>
          (if |key| <= 4 then None else
          match key[4]
          case 'b' => Some("NB")
          case 'h' => Some("NH")
          case 'j' => Some("NJ")
          case 'm' => Some("NM")
          case 'y' => Some("NY")
          case _ => None)
        case 'a' =>
          (match key[0]
          case 'h' => Some("HI")
          case 'i' => Some("IA")
          case _ => None)
        case 'f' => Some("NL")
        case _ => None)
      case 'x' => Some("TX")
      case _ => None
  }

  /**
   * `NAME_TO_CODE.get(key)`, where `NAME_TO_CODE` is the dictionary
   * `{_normalize_key(name): code for code, name in CODE_TO_NAME.items()}`:
   * the candidate code, when its name does normalise to `key`.
   * `NameIndexIsTable` proves this is that dictionary.
   */
  function NameToCode(key: string): (r: Option<string>)
    ensures r.Some? ==> CodeToName(r.value).Some? && NormalizeKey(CodeToName(r.value).value) == key
  {
    match NameCandidate(key)
    case None => None
    case Some(c) =>
      match CodeToName(c)
      case None => None
      case Some(n) => if NormalizeKey(n) == key then Some(c) else None
  }

  /** An official name is already clean, so its key is its lower-case form. */
  lemma NameKey(name: string)
    requires NoOuterSpace(name) && SingleSpaced(name)
    ensures NormalizeKey(name) == Lower(name)
  {
    StripClean(name);
    LowerKeepsSpacing(name);
    CollapseSingleSpaced(Lower(name));
  }

  /** What each table entry contributes to the name index. */
  predicate NameFactsOf(c: string, n: string) {
    NoOuterSpace(n) && SingleSpaced(n) && NameCandidate(Lower(n)) == Some(c)
  }

  lemma SpacingAL()
    ensures SingleSpaced("Alabama")
  {
    var s := "Alabama";
    assert forall i :: 0 <= i < |s| ==> !IsSpace(s[i]);
  }

  lemma EntryAL()
    ensures NameFactsOf("AL", "Alabama")
  {
    SpacingAL();
    assert Lower("Alabama") == "alabama";
    assert NameCandidate("alabama") == Some("AL");
  }

  lemma SpacingAK()
    ensures SingleSpaced("Alaska")
  {
    var s := "Alaska";
    assert forall i :: 0 <= i < |s| ==> !IsSpace(s[i]);
  }

  lemma EntryAK()
    ensures NameFactsOf("AK", "Alaska")
  {
    SpacingAK();
    assert Lower("Alaska") == "alaska";
    assert NameCandidate("alaska") == Some("AK");
  }

  lemma SpacingAZ()
    ensures SingleSpaced("Arizona")
  {
    var s := "Arizona";
    assert forall i :: 0 <= i < |s| ==> !IsSpace(s[i]);
  }

  lemma EntryAZ()
    ensures NameFactsOf("AZ", "Arizona")
  {
    SpacingAZ();
    assert Lower("Arizona") == "arizona";
    assert NameCandidate("arizona") == Some("AZ");
  }

  lemma SpacingAR()
    ensures SingleSpaced("Arkansas")
  {
    var s := "Arkansas";
    assert forall i :: 0 <= i < |s| ==> !IsSpace(s[i]);
  }

  lemma EntryAR()
    ensures NameFactsOf("AR", "Arkansas")
  {
    SpacingAR();
    assert Lower("Arkansas") == "arkansas";
    assert NameCandidate("arkansas") == Some("AR");
  }

  lemma SpacingCA()
    ensures SingleSpaced("California")
  {
    var s := "California";
    assert forall i :: 0 <= i < |s| ==> !IsSpace(s[i]);
  }

  lemma EntryCA()
    ensures NameFactsOf("CA", "California")
  {
    SpacingCA();
    assert Lower("California") == "california";
    assert NameCandidate("california") == Some("CA");
  }

  lemma SpacingCO()
    ensures SingleSpaced("Colorado")
  {
    var s := "Colorado";
    assert forall i :: 0 <= i < |s| ==> !IsSpace(s[i]);
  }

  lemma EntryCO()
    ensures NameFactsOf("CO", "Colorado")
  {
    SpacingCO();
    assert Lower("Colorado") == "colorado";
    assert NameCandidate("colorado") == Some("CO");
  }

  lemma SpacingCT()
    ensures SingleSpaced("Connecticut")
  {
    var s := "Connecticut";
    assert forall i :: 0 <= i < |s| ==> !IsSpace(s[i]);
  }

  lemma EntryCT()
    ensures NameFactsOf("CT", "Connecticut")
  {
    SpacingCT();
    assert Lower("Connecticut") == "connecticut";
    assert NameCandidate("connecticut") == Some("CT");
  }

  lemma SpacingDE()
    ensures SingleSpaced("Delaware")
  {
    var s := "Delaware";
    assert forall i :: 0 <= i < |s| ==> !IsSpace(s[i]);
  }

  lemma EntryDE()
    ensures NameFactsOf("DE", "Delaware")
  {
    SpacingDE();
    assert Lower("Delaware") == "delaware";
    assert NameCandidate("delaware") == Some("DE");
  }

  lemma SpacingFL()
    ensures SingleSpaced("Florida")
  {
    var s := "Florida";
    assert forall i :: 0 <= i < |s| ==> !IsSpace(s[i]);
  }

  lemma EntryFL()
    ensures NameFactsOf("FL", "Florida")
  {
    SpacingFL();
    assert Lower("Florida") == "florida";
    assert NameCandidate("florida") == Some("FL");
  }

  lemma SpacingGA()
    ensures SingleSpaced("Georgia")
  {
    var s := "Georgia";
    assert forall i :: 0 <= i < |s| ==> !IsSpace(s[i]);
  }

  lemma EntryGA()
    ensures NameFactsOf("GA", "Georgia")
  {
    SpacingGA();
    assert Lower("Georgia") == "georgia";
    assert NameCandidate("georgia") == Some("GA");
  }

  lemma SpacingHI()
    ensures SingleSpaced("Hawaii")
  {
    var s := "Hawaii";
    assert forall i :: 0 <= i < |s| ==> !IsSpace(s[i]);
  }

  lemma EntryHI()
    ensures NameFactsOf("HI", "Hawaii")
  {
    SpacingHI();
    assert Lower("Hawaii") == "hawaii";
    assert NameCandidate("hawaii") == Some("HI");
  }

  lemma SpacingID()
    ensures SingleSpaced("Idaho")
  {
    var s := "Idaho";
    assert forall i :: 0 <= i < |s| ==> !IsSpace(s[i]);
  }

  lemma EntryID()
    ensures NameFactsOf("ID", "Idaho")
  {
    SpacingID();
    assert Lower("Idaho") == "idaho";
    assert NameCandidate("idaho") == Some("ID");
  }

  lemma SpacingIL()
    ensures SingleSpaced("Illinois")
  {
    var s := "Illinois";
    assert forall i :: 0 <= i < |s| ==> !IsSpace(s[i]);
  }

  lemma EntryIL()
    ensures NameFactsOf("IL", "Illinois")
  {
    SpacingIL();
    assert Lower("Illinois") == "illinois";
    assert NameCandidate("illinois") == Some("IL");
  }

  lemma SpacingIN()
    ensures SingleSpaced("Indiana")
  {
    var s := "Indiana";
    assert forall i :: 0 <= i < |s| ==> !IsSpace(s[i]);
  }

  lemma EntryIN()
    ensures NameFactsOf("IN", "Indiana")
  {
    SpacingIN();
    assert Lower("Indiana") == "indiana";
    assert NameCandidate("indiana") == Some("IN");
  }

  lemma SpacingIA()
    ensures SingleSpaced("Iowa")
  {
    var s := "Iowa";
    assert forall i :: 0 <= i < |s| ==> !IsSpace(s[i]);
  }

  lemma EntryIA()
    ensures NameFactsOf("IA", "Iowa")
  {
    SpacingIA();
    assert Lower("Iowa") == "iowa";
    assert NameCandidate("iowa") == Some("IA");
  }

  lemma SpacingKS()
    ensures SingleSpaced("Kansas")
  {
    var s := "Kansas";
    assert forall i :: 0 <= i < |s| ==> !IsSpace(s[i]);
  }

  lemma EntryKS()
    ensures NameFactsOf("KS", "Kansas")
  {
    SpacingKS();
    assert Lower("Kansas") == "kansas";
    assert NameCandidate("kansas") == Some("KS");
  }

  lemma SpacingKY()
    ensures SingleSpaced("Kentucky")
  {
    var s := "Kentucky";
    assert forall i :: 0 <= i < |s| ==> !IsSpace(s[i]);
  }

  lemma EntryKY()
    ensures NameFactsOf("KY", "Kentucky")
  {
    SpacingKY();
    assert Lower("Kentucky") == "kentucky";
    assert NameCandidate("kentucky") == Some("KY");
  }

  lemma SpacingLA()
    ensures SingleSpaced("Louisiana")
  {
    var s := "Louisiana";
    assert forall i :: 0 <= i < |s| ==> !IsSpace(s[i]);
  }

  lemma EntryLA()
    ensures NameFactsOf("LA", "Louisiana")
  {
    SpacingLA();
    assert Lower("Louisiana") == "louisiana";
    assert NameCandidate("louisiana") == Some("LA");
  }

  lemma SpacingME()
    ensures SingleSpaced("Maine")
  {
    var s := "Maine";
    assert forall i :: 0 <= i < |s| ==> !IsSpace(s[i]);
  }

  lemma EntryME()
    ensures NameFactsOf("ME", "Maine")
  {
    SpacingME();
    assert Lower("Maine") == "maine";
    assert NameCandidate("maine") == Some("ME");
  }

  lemma SpacingMD()
    ensures SingleSpaced("Maryland")
  {
    var s := "Maryland";
    assert forall i :: 0 <= i < |s| ==> !IsSpace(s[i]);
  }

  lemma EntryMD()
    ensures NameFactsOf("MD", "Maryland")
  {
    SpacingMD();
    assert Lower("Maryland") == "maryland";
    assert NameCandidate("maryland") == Some("MD");
  }

  lemma SpacingMA()
    ensures SingleSpaced("Massachusetts")
  {
    var s := "Massachusetts";
    assert forall i :: 0 <= i < |s| ==> !IsSpace(s[i]);
  }

  lemma EntryMA()
    ensures NameFactsOf("MA", "Massachusetts")
  {
    SpacingMA();
    assert Lower("Massachusetts") == "massachusetts";
    assert NameCandidate("massachusetts") == Some("MA");
  }

  lemma SpacingMI()
    ensures SingleSpaced("Michigan")
  {
    var s := "Michigan";
    assert forall i :: 0 <= i < |s| ==> !IsSpace(s[i]);
  }

  lemma EntryMI()
    ensures NameFactsOf("MI", "Michigan")
  {
    SpacingMI();
    assert Lower("Michigan") == "michigan";
    assert NameCandidate("michigan") == Some("MI");
  }

  lemma SpacingMN()
    ensures SingleSpaced("Minnesota")
  {
    var s := "Minnesota";
    assert forall i :: 0 <= i < |s| ==> !IsSpace(s[i]);
  }

  lemma EntryMN()
    ensures NameFactsOf("MN", "Minnesota")
  {
    SpacingMN();
    assert Lower("Minnesota") == "minnesota";
    assert NameCandidate("minnesota") == Some("MN");
  }

  lemma SpacingMS()
    ensures SingleSpaced("Mississippi")
  {
    var s := "Mississippi";
    assert forall i :: 0 <= i < |s| ==> !IsSpace(s[i]);
  }

  lemma EntryMS()
    ensures NameFactsOf("MS", "Mississippi")
  {
    SpacingMS();
    assert Lower("Mississippi") == "mississippi";
    assert NameCandidate("mississippi") == Some("MS");
  }

  lemma SpacingMO()
    ensures SingleSpaced("Missouri")
  {
    var s := "Missouri";
    assert forall i :: 0 <= i < |s| ==> !IsSpace(s[i]);
  }

  lemma EntryMO()
    ensures NameFactsOf("MO", "Missouri")
  {
    SpacingMO();
    assert Lower("Missouri") == "missouri";
    assert NameCandidate("missouri") == Some("MO");
  }

  lemma SpacingMT()
    ensures SingleSpaced("Montana")
  {
    var s := "Montana";
    assert forall i :: 0 <= i < |s| ==> !IsSpace(s[i]);
  }

  lemma EntryMT()
    ensures NameFactsOf("MT", "Montana")
  {
    SpacingMT();
    assert Lower("Montana") == "montana";
    assert NameCandidate("montana") == Some("MT");
  }

  lemma SpacingNE()
    ensures SingleSpaced("Nebraska")
  {
    var s := "Nebraska";
    assert forall i :: 0 <= i < |s| ==> !IsSpace(s[i]);
  }

  lemma EntryNE()
    ensures NameFactsOf("NE", "Nebraska")
  {
    SpacingNE();
    assert Lower("Nebraska") == "nebraska";
    assert NameCandidate("nebraska") == Some("NE");
  }

  lemma SpacingNV()
    ensures SingleSpaced("Nevada")
  {
    var s := "Nevada";
    assert forall i :: 0 <= i < |s| ==> !IsSpace(s[i]);
  }

  lemma EntryNV()
    ensures NameFactsOf("NV", "Nevada")
  {
    SpacingNV();
    assert Lower("Nevada") == "nevada";
    assert NameCandidate("nevada") == Some("NV");
  }

  lemma SpacingNH()
    ensures SingleSpaced("New Hampshire")
  {
    var s := "New Hampshire";
    assert forall i :: 0 <= i < |s| && i != 3 ==> !IsSpace(s[i]);
  }

  lemma EntryNH()
    ensures NameFactsOf("NH", "New Hampshire")
  {
    SpacingNH();
    assert Lower("New Hampshire") == "new hampshire";
    assert NameCandidate("new hampshire") == Some("NH");
  }

  lemma SpacingNJ()
    ensures SingleSpaced("New Jersey")
  {
    var s := "New Jersey";
    assert forall i :: 0 <= i < |s| && i != 3 ==> !IsSpace(s[i]);
  }

  lemma EntryNJ()
    ensures NameFactsOf("NJ", "New Jersey")
  {
    SpacingNJ();
    assert Lower("New Jersey") == "new jersey";
    assert NameCandidate("new jersey") == Some("NJ");
  }

  lemma SpacingNM()
    ensures SingleSpaced("New Mexico")
  {
    var s := "New Mexico";
    assert forall i :: 0 <= i < |s| && i != 3 ==> !IsSpace(s[i]);
  }

  lemma EntryNM()
    ensures NameFactsOf("NM", "New Mexico")
  {
    SpacingNM();
    assert Lower("New Mexico") == "new mexico";
    assert NameCandidate("new mexico") == Some("NM");
  }

  lemma SpacingNY()
    ensures SingleSpaced("New York")
  {
    var s := "New York";
    assert forall i :: 0 <= i < |s| && i != 3 ==> !IsSpace(s[i]);
  }

  lemma EntryNY()
    ensures NameFactsOf("NY", "New York")
  {
    SpacingNY();
    assert Lower("New York") == "new york";
    assert NameCandidate("new york") == Some("NY");
  }

  lemma SpacingNC()
    ensures SingleSpaced("North Carolina")
  {
    var s := "North Carolina";
    assert forall i :: 0 <= i < |s| && i != 5 ==> !IsSpace(s[i]);
  }

  lemma EntryNC()
    ensures NameFactsOf("NC", "North Carolina")
  {
    SpacingNC();
    assert Lower("North Carolina") == "north carolina";
    assert NameCandidate("north carolina") == Some("NC");
  }

  lemma SpacingND()
    ensures SingleSpaced("North Dakota")
  {
    var s := "North Dakota";
    assert forall i :: 0 <= i < |s| && i != 5 ==> !IsSpace(s[i]);
  }

  lemma EntryND()
    ensures NameFactsOf("ND", "North Dakota")
  {
    SpacingND();
    assert Lower("North Dakota") == "north dakota";
    assert NameCandidate("north dakota") == Some("ND");
  }

  lemma SpacingOH()
    ensures SingleSpaced("Ohio")
  {
    var s := "Ohio";
    assert forall i :: 0 <= i < |s| ==> !IsSpace(s[i]);
  }

  lemma EntryOH()
    ensures NameFactsOf("OH", "Ohio")
  {
    SpacingOH();
    assert Lower("Ohio") == "ohio";
    assert NameCandidate("ohio") == Some("OH");
  }

  lemma SpacingOK()
    ensures SingleSpaced("Oklahoma")
  {
    var s := "Oklahoma";
    assert forall i :: 0 <= i < |s| ==> !IsSpace(s[i]);
  }

  lemma EntryOK()
    ensures NameFactsOf("OK", "Oklahoma")
  {
    SpacingOK();
    assert Lower("Oklahoma") == "oklahoma";
    assert NameCandidate("oklahoma") == Some("OK");
  }

  lemma SpacingOR()
    ensures SingleSpaced("Oregon")
  {
    var s := "Oregon";
    assert forall i :: 0 <= i < |s| ==> !IsSpace(s[i]);
  }

  lemma EntryOR()
    ensures NameFactsOf("OR", "Oregon")
  {
    SpacingOR();
    assert Lower("Oregon") == "oregon";
    assert NameCandidate("oregon") == Some("OR");
  }

  lemma SpacingPA()
    ensures SingleSpaced("Pennsylvania")
  {
    var s := "Pennsylvania";
    assert forall i :: 0 <= i < |s| ==> !IsSpace(s[i]);
  }

  lemma EntryPA()
    ensures NameFactsOf("PA", "Pennsylvania")
  {
    SpacingPA();
    assert Lower("Pennsylvania") == "pennsylvania";
    assert NameCandidate("pennsylvania") == Some("PA");
  }

  lemma SpacingRI()
    ensures SingleSpaced("Rhode Island")
  {
    var s := "Rhode Island";
    assert forall i :: 0 <= i < |s| && i != 5 ==> !IsSpace(s[i]);
  }

  lemma EntryRI()
    ensures NameFactsOf("RI", "Rhode Island")
  {
    SpacingRI();
    assert Lower("Rhode Island") == "rhode island";
    assert NameCandidate("rhode island") == Some("RI");
  }

  lemma SpacingSC()
    ensures SingleSpaced("South Carolina")
  {
    var s := "South Carolina";
    assert forall i :: 0 <= i < |s| && i != 5 ==> !IsSpace(s[i]);
  }

  lemma EntrySC()
    ensures NameFactsOf("SC", "South Carolina")
  {
    SpacingSC();
    assert Lower("South Carolina") == "south carolina";
    assert NameCandidate("south carolina") == Some("SC");
  }

  lemma SpacingSD()
    ensures SingleSpaced("South Dakota")
  {
    var s := "South Dakota";
    assert forall i :: 0 <= i < |s| && i != 5 ==> !IsSpace(s[i]);
  }

  lemma EntrySD()
    ensures NameFactsOf("SD", "South Dakota")
  {
    SpacingSD();
    assert Lower("South Dakota") == "south dakota";
    assert NameCandidate("south dakota") == Some("SD");
  }

  lemma SpacingTN()
    ensures SingleSpaced("Tennessee")
  {
    var s := "Tennessee";
    assert forall i :: 0 <= i < |s| ==> !IsSpace(s[i]);
  }

  lemma EntryTN()
    ensures NameFactsOf("TN", "Tennessee")
  {
    SpacingTN();
    assert Lower("Tennessee") == "tennessee";
    assert NameCandidate("tennessee") == Some("TN");
  }

  lemma SpacingTX()
    ensures SingleSpaced("Texas")
  {
    var s := "Texas";
    assert forall i :: 0 <= i < |s| ==> !IsSpace(s[i]);
  }

  lemma EntryTX()
    ensures NameFactsOf("TX", "Texas")
  {
    SpacingTX();
    assert Lower("Texas") == "texas";
    assert NameCandidate("texas") == Some("TX");
  }

  lemma SpacingUT()
    ensures SingleSpaced("Utah")
  {
    var s := "Utah";
    assert forall i :: 0 <= i < |s| ==> !IsSpace(s[i]);
  }

  lemma EntryUT()
    ensures NameFactsOf("UT", "Utah")
  {
    SpacingUT();
    assert Lower("Utah") == "utah";
    assert NameCandidate("utah") == Some("UT");
  }

  lemma SpacingVT()
    ensures SingleSpaced("Vermont")
  {
    var s := "Vermont";
    assert forall i :: 0 <= i < |s| ==> !IsSpace(s[i]);
  }

  lemma EntryVT()
    ensures NameFactsOf("VT", "Vermont")
  {
    SpacingVT();
    assert Lower("Vermont") == "vermont";
    assert NameCandidate("vermont") == Some("VT");
  }

  lemma SpacingVA()
    ensures SingleSpaced("Virginia")
  {
    var s := "Virginia";
    assert forall i :: 0 <= i < |s| ==> !IsSpace(s[i]);
  }

  lemma EntryVA()
    ensures NameFactsOf("VA", "Virginia")
  {
    SpacingVA();
    assert Lower("Virginia") == "virginia";
    assert NameCandidate("virginia") == Some("VA");
  }

  lemma SpacingWA()
    ensures SingleSpaced("Washington")
  {
    var s := "Washington";
    assert forall i :: 0 <= i < |s| ==> !IsSpace(s[i]);
  }

  lemma EntryWA()
    ensures NameFactsOf("WA", "Washington")
  {
    SpacingWA();
    assert Lower("Washington") == "washington";
    assert NameCandidate("washington") == Some("WA");
  }

  lemma SpacingWV()
    ensures SingleSpaced("West Virginia")
  {
    var s := "West Virginia";
    assert forall i :: 0 <= i < |s| && i != 4 ==> !IsSpace(s[i]);
  }

  lemma EntryWV()
    ensures NameFactsOf("WV", "West Virginia")
  {
    SpacingWV();
    assert Lower("West Virginia") == "west virginia";
    assert NameCandidate("west virginia") == Some("WV");
  }

  lemma SpacingWI()
    ensures SingleSpaced("Wisconsin")
  {
    var s := "Wisconsin";
    assert forall i :: 0 <= i < |s| ==> !IsSpace(s[i]);
  }

  lemma EntryWI()
    ensures NameFactsOf("WI", "Wisconsin")
  {
    SpacingWI();
    assert Lower("Wisconsin") == "wisconsin";
    assert NameCandidate("wisconsin") == Some("WI");
  }

  lemma SpacingWY()
    ensures SingleSpaced("Wyoming")
  {
    var s := "Wyoming";
    assert forall i :: 0 <= i < |s| ==> !IsSpace(s[i]);
  }

  lemma EntryWY()
    ensures NameFactsOf("WY", "Wyoming")
  {
    SpacingWY();
    assert Lower("Wyoming") == "wyoming";
    assert NameCandidate("wyoming") == Some("WY");
  }

  lemma SpacingDC()
    ensures SingleSpaced("District of Columbia")
  {
    var s := "District of Columbia";
    assert forall i :: 0 <= i < |s| && i != 8 && i != 11 ==> !IsSpace(s[i]);
  }

  lemma LowerDC()
    ensures Lower("District of Columbia") == "district of columbia"
  {
  }

  lemma EntryDC()
    ensures NameFactsOf("DC", "District of Columbia")
  {
    SpacingDC();
    LowerDC();
    assert NameCandidate("district of columbia") == Some("DC");
  }

  lemma SpacingPR()
    ensures SingleSpaced("Puerto Rico")
  {
    var s := "Puerto Rico";
    assert forall i :: 0 <= i < |s| && i != 6 ==> !IsSpace(s[i]);
  }

  lemma EntryPR()
    ensures NameFactsOf("PR", "Puerto Rico")
  {
    SpacingPR();
    assert Lower("Puerto Rico") == "puerto rico";
    assert NameCandidate("puerto rico") == Some("PR");
  }

  lemma SpacingGU()
    ensures SingleSpaced("Guam")
  {
    var s := "Guam";
    assert forall i :: 0 <= i < |s| ==> !IsSpace(s[i]);
  }

  lemma EntryGU()
    ensures NameFactsOf("GU", "Guam")
  {
    SpacingGU();
    assert Lower("Guam") == "guam";
    assert NameCandidate("guam") == Some("GU");
  }

  lemma SpacingVI()
    ensures SingleSpaced("U.S. Virgin Islands")
  {
    var s := "U.S. Virgin Islands";
    assert forall i :: 0 <= i < |s| && i != 4 && i != 11 ==> !IsSpace(s[i]);
  }

  lemma LowerVI()
    ensures Lower("U.S. Virgin Islands") == "u.s. virgin islands"
  {
  }

  lemma EntryVI()
    ensures NameFactsOf("VI", "U.S. Virgin Islands")
  {
    SpacingVI();
    LowerVI();
    assert NameCandidate("u.s. virgin islands") == Some("VI");
  }

  lemma SpacingAS()
    ensures SingleSpaced("American Samoa")
  {
    var s := "American Samoa";
    assert forall i :: 0 <= i < |s| && i != 8 ==> !IsSpace(s[i]);
  }

  lemma EntryAS()
    ensures NameFactsOf("AS", "American Samoa")
  {
    SpacingAS();
    assert Lower("American Samoa") == "american samoa";
    assert NameCandidate("american samoa") == Some("AS");
  }

  lemma SpacingMP()
    ensures SingleSpaced("Northern Mariana Islands")
  {
    var s := "Northern Mariana Islands";
    assert forall i :: 0 <= i < |s| && i != 8 && i != 16 ==> !IsSpace(s[i]);
  }

  lemma LowerMP()
    ensures Lower("Northern Mariana Islands") == "northern mariana islands"
  {
  }

  lemma EntryMP()
    ensures NameFactsOf("MP", "Northern Mariana Islands")
  {
    SpacingMP();
    LowerMP();
    assert NameCandidate("northern mariana islands") == Some("MP");
  }

  lemma SpacingAB()
    ensures SingleSpaced("Alberta")
  {
    var s := "Alberta";
    assert forall i :: 0 <= i < |s| ==> !IsSpace(s[i]);
  }

  lemma EntryAB()
    ensures NameFactsOf("AB", "Alberta")
  {
    SpacingAB();
    assert Lower("Alberta") == "alberta";
    assert NameCandidate("alberta") == Some("AB");
  }

  lemma SpacingBC()
    ensures SingleSpaced("British Columbia")
  {
    var s := "British Columbia";
    assert forall i :: 0 <= i < |s| && i != 7 ==> !IsSpace(s[i]);
  }

  lemma LowerBC()
    ensures Lower("British Columbia") == "british columbia"
  {
  }

  lemma EntryBC()
    ensures NameFactsOf("BC", "British Columbia")
  {
    SpacingBC();
    LowerBC();
    assert NameCandidate("british columbia") == Some("BC");
  }

  lemma SpacingMB()
    ensures SingleSpaced("Manitoba")
  {
    var s := "Manitoba";
    assert forall i :: 0 <= i < |s| ==> !IsSpace(s[i]);
  }

  lemma EntryMB()
    ensures NameFactsOf("MB", "Manitoba")
  {
    SpacingMB();
    assert Lower("Manitoba") == "manitoba";
    assert NameCandidate("manitoba") == Some("MB");
  }

  lemma SpacingNB()
    ensures SingleSpaced("New Brunswick")
  {
    var s := "New Brunswick";
    assert forall i :: 0 <= i < |s| && i != 3 ==> !IsSpace(s[i]);
  }

  lemma EntryNB()
    ensures NameFactsOf("NB", "New Brunswick")
  {
    SpacingNB();
    assert Lower("New Brunswick") == "new brunswick";
    assert NameCandidate("new brunswick") == Some("NB");
  }

  lemma SpacingNL()
    ensures SingleSpaced("Newfoundland and Labrador")
  {
    var s := "Newfoundland and Labrador";
    assert forall i :: 0 <= i < |s| && i != 12 && i != 16 ==> !IsSpace(s[i]);
  }

  lemma LowerNL()
    ensures Lower("Newfoundland and Labrador") == "newfoundland and labrador"
  {
  }

  lemma EntryNL()
    ensures NameFactsOf("NL", "Newfoundland and Labrador")
  {
    SpacingNL();
    LowerNL();
    assert NameCandidate("newfoundland and labrador") == Some("NL");
  }

  lemma SpacingNS()
    ensures SingleSpaced("Nova Scotia")
  {
    var s := "Nova Scotia";
    assert forall i :: 0 <= i < |s| && i != 4 ==> !IsSpace(s[i]);
  }

  lemma EntryNS()
    ensures NameFactsOf("NS", "Nova Scotia")
  {
    SpacingNS();
    assert Lower("Nova Scotia") == "nova scotia";
    assert NameCandidate("nova scotia") == Some("NS");
  }

  lemma SpacingNT()
    ensures SingleSpaced("Northwest Territories")
  {
    var s := "Northwest Territories";
    assert forall i :: 0 <= i < |s| && i != 9 ==> !IsSpace(s[i]);
  }

  lemma LowerNT()
    ensures Lower("Northwest Territories") == "northwest territories"
  {
  }

  lemma EntryNT()
    ensures NameFactsOf("NT", "Northwest Territories")
  {
    SpacingNT();
    LowerNT();
    assert NameCandidate("northwest territories") == Some("NT");
  }

  lemma SpacingNU()
    ensures SingleSpaced("Nunavut")
  {
    var s := "Nunavut";
    assert forall i :: 0 <= i < |s| ==> !IsSpace(s[i]);
  }

  lemma EntryNU()
    ensures NameFactsOf("NU", "Nunavut")
  {
    SpacingNU();
    assert Lower("Nunavut") == "nunavut";
    assert NameCandidate("nunavut") == Some("NU");
  }

  lemma SpacingON()
    ensures SingleSpaced("Ontario")
  {
    var s := "Ontario";
    assert forall i :: 0 <= i < |s| ==> !IsSpace(s[i]);
  }

  lemma EntryON()
    ensures NameFactsOf("ON", "Ontario")
  {
    SpacingON();
    assert Lower("Ontario") == "ontario";
    assert NameCandidate("ontario") == Some("ON");
  }

  lemma SpacingPE()
    ensures SingleSpaced("Prince Edward Island")
  {
    var s := "Prince Edward Island";
    assert forall i :: 0 <= i < |s| && i != 6 && i != 13 ==> !IsSpace(s[i]);
  }

  lemma LowerPE()
    ensures Lower("Prince Edward Island") == "prince edward island"
  {
  }

  lemma EntryPE()
    ensures NameFactsOf("PE", "Prince Edward Island")
  {
    SpacingPE();
    LowerPE();
    assert NameCandidate("prince edward island") == Some("PE");
  }

  lemma SpacingQC()
    ensures SingleSpaced("Quebec")
  {
    var s := "Quebec";
    assert forall i :: 0 <= i < |s| ==> !IsSpace(s[i]);
  }

  lemma EntryQC()
    ensures NameFactsOf("QC", "Quebec")
  {
    SpacingQC();
    assert Lower("Quebec") == "quebec";
    assert NameCandidate("quebec") == Some("QC");
  }

  lemma SpacingSK()
    ensures SingleSpaced("Saskatchewan")
  {
    var s := "Saskatchewan";
    assert forall i :: 0 <= i < |s| ==> !IsSpace(s[i]);
  }

  lemma EntrySK()
    ensures NameFactsOf("SK", "Saskatchewan")
  {
    SpacingSK();
    assert Lower("Saskatchewan") == "saskatchewan";
    assert NameCandidate("saskatchewan") == Some("SK");
  }

  lemma SpacingYT()
    ensures SingleSpaced("Yukon")
  {
    var s := "Yukon";
    assert forall i :: 0 <= i < |s| ==> !IsSpace(s[i]);
  }

  lemma EntryYT()
    ensures NameFactsOf("YT", "Yukon")
  {
    SpacingYT();
    assert Lower("Yukon") == "yukon";
    assert NameCandidate("yukon") == Some("YT");
  }

  lemma NameEntriesA(c: string)
    requires CodeToName(c).Some? && c[0] == 'A'
    ensures NameFactsOf(c, CodeToName(c).value)
  {
    TableShape(c);
    match c[1]
    case 'B' => assert c == "AB"; EntryAB();
    case 'K' => assert c == "AK"; EntryAK();
    case 'L' => assert c == "AL"; EntryAL();
    case 'R' => assert c == "AR"; EntryAR();
    case 'S' => assert c == "AS"; EntryAS();
    case 'Z' => assert c == "AZ"; EntryAZ();
    case _ => assert false;
  }

  lemma NameEntriesB(c: string)
    requires CodeToName(c).Some? && c[0] == 'B'
    ensures NameFactsOf(c, CodeToName(c).value)
  {
    TableShape(c);
    match c[1]
    case 'C' => assert c == "BC"; EntryBC();
    case _ => assert false;
  }

  lemma NameEntriesC(c: string)
    requires CodeToName(c).Some? && c[0] == 'C'
    ensures NameFactsOf(c, CodeToName(c).value)
  {
    TableShape(c);
    match c[1]
    case 'A' => assert c == "CA"; EntryCA();
    case 'O' => assert c == "CO"; EntryCO();
    case 'T' => assert c == "CT"; EntryCT();
    case _ => assert false;
  }

  lemma NameEntriesD(c: string)
    requires CodeToName(c).Some? && c[0] == 'D'
    ensures NameFactsOf(c, CodeToName(c).value)
  {
    TableShape(c);
    match c[1]
    case 'C' => assert c == "DC"; EntryDC();
    case 'E' => assert c == "DE"; EntryDE();
    case _ => assert false;
  }

  lemma NameEntriesF(c: string)
    requires CodeToName(c).Some? && c[0] == 'F'
    ensures NameFactsOf(c, CodeToName(c).value)
  {
    TableShape(c);
    match c[1]
    case 'L' => assert c == "FL"; EntryFL();
    case _ => assert false;
  }

  lemma NameEntriesG(c: string)
    requires CodeToName(c).Some? && c[0] == 'G'
    ensures NameFactsOf(c, CodeToName(c).value)
  {
    TableShape(c);
    match c[1]
    case 'A' => assert c == "GA"; EntryGA();
    case 'U' => assert c == "GU"; EntryGU();
    case _ => assert false;
  }

  lemma NameEntriesH(c: string)
    requires CodeToName(c).Some? && c[0] == 'H'
    ensures NameFactsOf(c, CodeToName(c).value)
  {
    TableShape(c);
    match c[1]
    case 'I' => assert c == "HI"; EntryHI();
    case _ => assert false;
  }

  lemma NameEntriesI(c: string)
    requires CodeToName(c).Some? && c[0] == 'I'
    ensures NameFactsOf(c, CodeToName(c).value)
  {
    TableShape(c);
    match c[1]
    case 'A' => assert c == "IA"; EntryIA();
    case 'D' => assert c == "ID"; EntryID();
    case 'L' => assert c == "IL"; EntryIL();
    case 'N' => assert c == "IN"; EntryIN();
    case _ => assert false;
  }

  lemma NameEntriesK(c: string)
    requires CodeToName(c).Some? && c[0] == 'K'
    ensures NameFactsOf(c, CodeToName(c).value)
  {
    TableShape(c);
    match c[1]
    case 'S' => assert c == "KS"; EntryKS();
    case 'Y' => assert c == "KY"; EntryKY();
    case _ => assert false;
  }

  lemma NameEntriesL(c: string)
    requires CodeToName(c).Some? && c[0] == 'L'
    ensures NameFactsOf(c, CodeToName(c).value)
  {
    TableShape(c);
    match c[1]
    case 'A' => assert c == "LA"; EntryLA();
    case _ => assert false;
  }

  lemma NameEntriesM(c: string)
    requires CodeToName(c).Some? && c[0] == 'M'
    ensures NameFactsOf(c, CodeToName(c).value)
  {
    TableShape(c);
    match c[1]
    case 'A' => assert c == "MA"; EntryMA();
    case 'B' => assert c == "MB"; EntryMB();
    case 'D' => assert c == "MD"; EntryMD();
    case 'E' => assert c == "ME"; EntryME();
    case 'I' => assert c == "MI"; EntryMI();
    case 'N' => assert c == "MN"; EntryMN();
    case 'O' => assert c == "MO"; EntryMO();
    case 'P' => assert c == "MP"; EntryMP();
    case 'S' => assert c == "MS"; EntryMS();
    case 'T' => assert c == "MT"; EntryMT();
    case _ => assert false;
  }

  lemma NameEntriesN(c: string)
    requires CodeToName(c).Some? && c[0] == 'N'
    ensures NameFactsOf(c, CodeToName(c).value)
  {
    TableShape(c);
    match c[1]
    case 'B' => assert c == "NB"; EntryNB();
    case 'C' => assert c == "NC"; EntryNC();
    case 'D' => assert c == "ND"; EntryND();
    case 'E' => assert c == "NE"; EntryNE();
    case 'H' => assert c == "NH"; EntryNH();
    case 'J' => assert c == "NJ"; EntryNJ();
    case 'L' => assert c == "NL"; EntryNL();
    case 'M' => assert c == "NM"; EntryNM();
    case 'S' => assert c == "NS"; EntryNS();
    case 'T' => assert c == "NT"; EntryNT();
    case 'U' => assert c == "NU"; EntryNU();
    case 'V' => assert c == "NV"; EntryNV();
    case 'Y' => assert c == "NY"; EntryNY();
    case _ => assert false;
  }

  lemma NameEntriesO(c: string)
    requires CodeToName(c).Some? && c[0] == 'O'
    ensures NameFactsOf(c, CodeToName(c).value)
  {
    TableShape(c);
    match c[1]
    case 'H' => assert c == "OH"; EntryOH();
    case 'K' => assert c == "OK"; EntryOK();
    case 'N' => assert c == "ON"; EntryON();
    case 'R' => assert c == "OR"; EntryOR();
    case _ => assert false;
  }

  lemma NameEntriesP(c: string)
    requires CodeToName(c).Some? && c[0] == 'P'
    ensures NameFactsOf(c, CodeToName(c).value)
  {
    TableShape(c);
    match c[1]
    case 'A' => assert c == "PA"; EntryPA();
    case 'E' => assert c == "PE"; EntryPE();
    case 'R' => assert c == "PR"; EntryPR();
    case _ => assert false;
  }

  lemma NameEntriesQ(c: string)
    requires CodeToName(c).Some? && c[0] == 'Q'
    ensures NameFactsOf(c, CodeToName(c).value)
  {
    TableShape(c);
    match c[1]
    case 'C' => assert c == "QC"; EntryQC();
    case _ => assert false;
  }

  lemma NameEntriesR(c: string)
    requires CodeToName(c).Some? && c[0] == 'R'
    ensures NameFactsOf(c, CodeToName(c).value)
  {
    TableShape(c);
    match c[1]
    case 'I' => assert c == "RI"; EntryRI();
    case _ => assert false;
  }

  lemma NameEntriesS(c: string)
    requires CodeToName(c).Some? && c[0] == 'S'
    ensures NameFactsOf(c, CodeToName(c).value)
  {
    TableShape(c);
    match c[1]
    case 'C' => assert c == "SC"; EntrySC();
    case 'D' => assert c == "SD"; EntrySD();
    case 'K' => assert c == "SK"; EntrySK();
    case _ => assert false;
  }

  lemma NameEntriesT(c: string)
    requires CodeToName(c).Some? && c[0] == 'T'
    ensures NameFactsOf(c, CodeToName(c).value)
  {
    TableShape(c);
    match c[1]
    case 'N' => assert c == "TN"; EntryTN();
    case 'X' => assert c == "TX"; EntryTX();
    case _ => assert false;
  }

  lemma NameEntriesU(c: string)
    requires CodeToName(c).Some? && c[0] == 'U'
    ensures NameFactsOf(c, CodeToName(c).value)
  {
    TableShape(c);
    match c[1]
    case 'T' => assert c == "UT"; EntryUT();
    case _ => assert false;
  }

  lemma NameEntriesV(c: string)
    requires CodeToName(c).Some? && c[0] == 'V'
    ensures NameFactsOf(c, CodeToName(c).value)
  {
    TableShape(c);
    match c[1]
    case 'A' => assert c == "VA"; EntryVA();
    case 'I' => assert c == "VI"; EntryVI();
    case 'T' => assert c == "VT"; EntryVT();
    case _ => assert false;
  }

  lemma NameEntriesW(c: string)
    requires CodeToName(c).Some? && c[0] == 'W'
    ensures NameFactsOf(c, CodeToName(c).value)
  {
    TableShape(c);
    match c[1]
    case 'A' => assert c == "WA"; EntryWA();
    case 'I' => assert c == "WI"; EntryWI();
    case 'V' => assert c == "WV"; EntryWV();
    case 'Y' => assert c == "WY"; EntryWY();
    case _ => assert false;
  }

  lemma NameEntriesY(c: string)
    requires CodeToName(c).Some? && c[0] == 'Y'
    ensures NameFactsOf(c, CodeToName(c).value)
  {
    TableShape(c);
    match c[1]
    case 'T' => assert c == "YT"; EntryYT();
    case _ => assert false;
  }

  lemma NameEntries(c: string)
    requires CodeToName(c).Some?
    ensures NameFactsOf(c, CodeToName(c).value)
  {
    TableShape(c);
    match c[0]
    case 'A' => NameEntriesA(c);
    case 'B' => NameEntriesB(c);
    case 'C' => NameEntriesC(c);
    case 'D' => NameEntriesD(c);
    case 'F' => NameEntriesF(c);
    case 'G' => NameEntriesG(c);
    case 'H' => NameEntriesH(c);
    case 'I' => NameEntriesI(c);
    case 'K' => NameEntriesK(c);
    case 'L' => NameEntriesL(c);
    case 'M' => NameEntriesM(c);
    case 'N' => NameEntriesN(c);
    case 'O' => NameEntriesO(c);
    case 'P' => NameEntriesP(c);
    case 'Q' => NameEntriesQ(c);
    case 'R' => NameEntriesR(c);
    case 'S' => NameEntriesS(c);
    case 'T' => NameEntriesT(c);
    case 'U' => NameEntriesU(c);
    case 'V' => NameEntriesV(c);
    case 'W' => NameEntriesW(c);
    case 'Y' => NameEntriesY(c);
    case _ => assert false;
  }

  /** Every official name is clean; its key is its lower-case form. */
  lemma NameIsClean(c: string)
    requires CodeToName(c).Some?
    ensures NoOuterSpace(CodeToName(c).value) && SingleSpaced(CodeToName(c).value)
    ensures NormalizeKey(CodeToName(c).value) == Lower(CodeToName(c).value)
  {
    NameEntries(c);
    NameKey(CodeToName(c).value);
  }

  /** No two codes of the table have names with the same key. */
  lemma NameKeysDistinct(c: string, d: string)
    requires CodeToName(c).Some? && CodeToName(d).Some?
    requires NormalizeKey(CodeToName(c).value) == NormalizeKey(CodeToName(d).value)
    ensures c == d
  {
    NameEntries(c);
    NameEntries(d);
    NameKey(CodeToName(c).value);
    NameKey(CodeToName(d).value);
  }

  /** Every table name, normalised, indexes its own code. */
  lemma NameIndexCoversTable(c: string)
    requires CodeToName(c).Some?
    ensures NameToCode(NormalizeKey(CodeToName(c).value)) == Some(c)
  {
    NameEntries(c);
    NameKey(CodeToName(c).value);
  }

  /** `NAME_TO_CODE` is exactly `{_normalize_key(name): code for code, name in CODE_TO_NAME.items()}`. */
  lemma NameIndexIsTable(key: string, c: string)
    ensures NameToCode(key) == Some(c) <==> CodeToName(c).Some? && NormalizeKey(CodeToName(c).value) == key
  {
    if CodeToName(c).Some? && NormalizeKey(CodeToName(c).value) == key {
      NameIndexCoversTable(c);
    }
  }

  /** Every code is two upper-case ASCII letters, and every name is longer than a code. */
  lemma TableShape(c: string)
    requires CodeToName(c).Some?
    ensures |c| == 2 && 'A' <= c[0] <= 'Z' && 'A' <= c[1] <= 'Z'
    ensures |CodeToName(c).value| > 2
  {
  }

  datatype StateError = EmptyState | UnknownState(input: string)

  /**
   * `normalize_state`: a code in any case, or a name in any case and spacing,
   * surrounding whitespace ignored; an error (`ValueError`) for empty or
   * unknown input.
   */
  function NormalizeState(input: string): (r: Result<string, StateError>)
    ensures r == Err(EmptyState) <==> Strip(input) == []
    ensures r.Err? ==> r == Err(EmptyState) || r == Err(UnknownState(input))
    ensures r.Ok? ==> CodeToName(r.value).Some?
    ensures r.Ok? ==> Upper(Strip(input)) == r.value
                      || NormalizeKey(input) == NormalizeKey(CodeToName(r.value).value)
  {
    if input == [] || Strip(input) == [] then Err(EmptyState)
    else
      var raw := Strip(input);
      var candidate := Upper(raw);
      if CodeToName(candidate).Some? then Ok(candidate)
      else
        var key := NormalizeKey(raw);
        match NameToCode(key)
        case Some(c) =>
          NormalizeKeyOfStrip(input);
          Ok(c)
        case None => Err(UnknownState(input))
  }

  /** A code is found whatever its case and surrounding whitespace. */
  lemma NormalizeCode(input: string, c: string)
    requires CodeToName(c).Some? && Upper(Strip(input)) == c
    ensures NormalizeState(input) == Ok(c)
  {
  }

  /** A name is found whatever its case and spacing (a name is never mistaken for a code). */
  lemma NormalizeName(input: string, c: string)
    requires CodeToName(c).Some? && NormalizeKey(input) == NormalizeKey(CodeToName(c).value)
    requires |Strip(input)| != 2
    ensures NormalizeState(input) == Ok(c)
  {
    var raw := Strip(input);
    assert NormalizeKey(raw) == NormalizeKey(input) by {
      NormalizeKeyOfStrip(input);
    }
    assert NameToCode(NormalizeKey(raw)) == Some(c) by {
      NameIndexCoversTable(c);
    }
    assert raw != [] by {
      if raw == [] {
        assert NormalizeKey(raw) == [];
        NameIsClean(c);
        TableShape(c);
      }
    }
    assert CodeToName(Upper(raw)).None? by {
      if CodeToName(Upper(raw)).Some? {
        TableShape(Upper(raw));
      }
    }
  }

  /** Round trip: every code, in either case, normalises to itself. */
  lemma NormalizeCodes(c: string)
    requires CodeToName(c).Some?
    ensures NormalizeState(c) == Ok(c) && NormalizeState(Lower(c)) == Ok(c)
  {
    TableShape(c);
    UpperLetters(c);
    StripClean(c);
    StripClean(Lower(c));
    NormalizeCode(c, c);
    NormalizeCode(Lower(c), c);
  }

  /** Round trip: every official name normalises to its code. */
  lemma NormalizeNames(c: string)
    requires CodeToName(c).Some?
    ensures NormalizeState(CodeToName(c).value) == Ok(c)
  {
    var n := CodeToName(c).value;
    TableShape(c);
    NameIsClean(c);
    StripClean(n);
    NormalizeName(n, c);
  }

  /** `is_valid_state_code`: non-empty, and a table code once stripped and upper-cased. */
  function IsValidStateCode(code: string): (r: bool)
    ensures r ==> |Strip(code)| == 2 && NormalizeState(code) == Ok(Upper(Strip(code)))
    ensures |Strip(code)| == 2 && NormalizeState(code).Ok? ==> r
  {
    if code == [] then false
    else
      var candidate := Upper(Strip(code));
      if CodeToName(candidate).Some? then TableShape(candidate); true
      else
        if NormalizeState(code).Ok? then
          var c := NormalizeState(code).value;
          assert c != candidate;
          NameNeedsLongInput(code, c);
          false
        else false
  }

  /** The key never outgrows the stripped input it comes from. */
  lemma KeyNoLonger(v: string)
    ensures |NormalizeKey(v)| <= |Strip(v)|
  {
  }

  /**
   * An input whose key is a table name's key is longer than two characters
   * once stripped: every table name is.
   */
  lemma NameNeedsLongInput(input: string, c: string)
    requires CodeToName(c).Some? && NormalizeKey(input) == NormalizeKey(CodeToName(c).value)
    ensures |Strip(input)| > 2
  {
    NameIsClean(c);
    TableShape(c);
    KeyNoLonger(input);
  }

  /** Every table code is valid, in either case. */
  lemma ValidCodes(c: string)
    requires CodeToName(c).Some?
    ensures IsValidStateCode(c) && IsValidStateCode(Lower(c))
  {
    ValidUpperCode(c);
    ValidLowerCode(c);
  }

  lemma ValidUpperCode(c: string)
    requires CodeToName(c).Some?
    ensures IsValidStateCode(c)
  {
    TableShape(c);
    UpperLetters(c);
    StripClean(c);
  }

  lemma ValidLowerCode(c: string)
    requires CodeToName(c).Some?
    ensures IsValidStateCode(Lower(c))
  {
    TableShape(c);
    UpperLetters(c);
    StripClean(Lower(c));
  }

  /** No full name is a valid code. */
  lemma NameIsNotValidCode(c: string)
    requires CodeToName(c).Some?
    ensures !IsValidStateCode(CodeToName(c).value)
  {
    NameIsClean(c);
    var n := CodeToName(c).value;
    StripClean(n);
    if CodeToName(Upper(n)).Some? {
      TableShape(Upper(n));
      TableShape(c);
    }
  }

  /** `state_name`: the official name of the normalised input. */
  function StateName(code: string): (r: Result<string, StateError>)
    ensures r.Ok? <==> NormalizeState(code).Ok?
    ensures r.Ok? ==> CodeToName(NormalizeState(code).value) == Some(r.value)
    ensures r.Err? ==> r.error == NormalizeState(code).error
  {
    match NormalizeState(code)
    case Ok(c) => Ok(CodeToName(c).value)
    case Err(e) => Err(e)
  }

  lemma StateNameOfTable(c: string)
    requires CodeToName(c).Some?
    ensures StateName(c) == Ok(CodeToName(c).value)
    ensures StateName(CodeToName(c).value) == Ok(CodeToName(c).value)
  {
    NormalizeCodes(c);
    NormalizeNames(c);
  }

  const SearchBase := "https://www.numberbarn.com/search"

  /** The search parameters, in the order `urlencode` writes them. */
  function SearchParams(search: string, code: string): seq<(string, string)> {
    [("type", "local"), ("search", search), ("state", code),
     ("moreResults", "true"), ("sort", "price+"), ("limit", "24")]
  }

  /**
   * `build_numberbarn_url`: the search URL for a normalised state, or the
   * normalisation error. The query is the six parameters, each encoded, in
   * order.
   */
  function BuildNumberbarnUrl(search: string, stateInput: string): (r: Result<string, StateError>)
    ensures r.Ok? <==> NormalizeState(stateInput).Ok?
    ensures r.Err? ==> r.error == NormalizeState(stateInput).error
    ensures r.Ok? ==> IsPrefix(SearchBase + "?", r.value)
    ensures r.Ok? ==> Split(r.value[|SearchBase| + 1..], '&')
                      == seq(6, i requires 0 <= i < 6 => EncodePair(SearchParams(search, NormalizeState(stateInput).value)[i]))
  {
    match NormalizeState(stateInput)
    case Err(e) => Err(e)
    case Ok(code) =>
      var url := SearchBase + "?" + UrlEncode(SearchParams(search, code));
      assert url[|SearchBase| + 1..] == UrlEncode(SearchParams(search, code));
      UrlEncodeSplits(SearchParams(search, code));
      Ok(url)
  }

  /** The search text is sent `quote_plus`-encoded. */
  lemma SearchTermField(search: string, code: string)
    ensures EncodePair(SearchParams(search, code)[1]) == "search=" + QuotePlus(search)
  {
    assert SearchParams(search, code)[1] == ("search", search);
    var key := "search";
    assert forall i :: 0 <= i < |key| ==> IsUnreserved(key[i]);
    PlainKey(key, search);
    assert key + "=" == "search=";
  }

  /** A table code is sent as it is. */
  lemma StateField(search: string, code: string)
    requires CodeToName(code).Some?
    ensures EncodePair(SearchParams(search, code)[2]) == "state=" + code
  {
    assert SearchParams(search, code)[2] == ("state", code);
    TableShape(code);
    var key := "state";
    assert forall i :: 0 <= i < |key| ==> IsUnreserved(key[i]);
    PlainKey(key, code);
    assert key + "=" == "state=";
    QuotePlusUnreserved(code);
  }

  /** The `+` of the sort order is escaped. */
  lemma SortField(search: string, code: string)
    ensures EncodePair(SearchParams(search, code)[4]) == "sort=price%2B"
  {
    assert SearchParams(search, code)[4] == ("sort", "price+");
    QuotePlusUnreserved("sort");
    PricePlusQuoted();
  }

  lemma PricePlusQuoted()
    ensures QuotePlus("price+") == "price%2B"
  {
    assert "price+" == "price" + "+";
    QuotePlusUnreserved("price");
    QuotePlusAppend("price", "+");
    PlusEscape();
  }
}
